/**
  The billing reading of server/internal/api/grok_client.go: from the bytes of a
  gRPC-web response to a used percentage and a reset time.
 */
module GrokBilling {
  import opened Prelude
  import opened WireScan
  import GrpcWebFrames

  /** An IEEE 754 single widened to a double: exact, so a real number serves for the finite ones. */
  datatype Float = Finite(r: real) | Infinite(negative: bool) | NaN {
    /** x < 0 and x > 100 as Go compares floats: a NaN is neither. */
    predicate BelowZero() {
      (Finite? && r < 0.0) || (Infinite? && negative)
    }

    predicate AboveHundred() {
      (Finite? && r > 100.0) || (Infinite? && !negative)
    }

    predicate IsPercent() {
      Finite? && 0.0 <= r <= 100.0
    }
  }

  function PowerOfTwo(e: int): real
    decreases if e < 0 then -e else e
  {
    if e == 0 then 1.0 else if e > 0 then 2.0 * PowerOfTwo(e - 1) else PowerOfTwo(e + 1) / 2.0
  }

  function FloatOfBits(bits: uint32): Float {
    var negative := bits / 0x8000_0000 == 1;
    var exponent: int := bits / 0x80_0000 % 0x100;
    var mantissa: int := bits % 0x80_0000;
    if exponent == 0xFF then
      if mantissa == 0 then Infinite(negative) else NaN
    else
      var magnitude :=
        if exponent == 0 then mantissa as real * PowerOfTwo(-149)
        else (0x80_0000 + mantissa) as real * PowerOfTwo(exponent - 150);
      Finite(if negative then -magnitude else magnitude)
  }

  /** A response reading; the reset time is in unix seconds. */
  datatype Billing = Billing(usedPercent: Float, resetsAt: Option<uint64>)
  datatype Parse = ParseFailed | ScanPanic | Parsed(billing: Billing)

  const PLAUSIBLE_FROM: uint64 := 1_700_000_000
  const PLAUSIBLE_TO: uint64 := 2_100_000_000
  const NANOS: int := 1_000_000_000

  // The used percentage.

  predicate PercentCandidate(l: Fixed32Leaf) {
    && l.path != []
    && l.path[|l.path| - 1] == 1
    && !FloatOfBits(l.bits).BelowZero()
    && !FloatOfBits(l.bits).AboveHundred()
  }

  /** The i-th leaf is the first among the candidates of least depth. */
  predicate FirstShallowest(leaves: seq<Fixed32Leaf>, i: nat) {
    && i < |leaves|
    && PercentCandidate(leaves[i])
    && (forall j :: 0 <= j < |leaves| && PercentCandidate(leaves[j]) ==> |leaves[i].path| <= |leaves[j].path|)
    && (forall j :: 0 <= j < i && PercentCandidate(leaves[j]) ==> |leaves[i].path| < |leaves[j].path|)
  }

  ghost predicate Reports(leaves: seq<Fixed32Leaf>, percent: Float) {
    exists i: nat :: FirstShallowest(leaves, i) && percent == FloatOfBits(leaves[i].bits)
  }

  predicate NoCandidate(leaves: seq<Fixed32Leaf>) {
    forall l :: l in leaves ==> !PercentCandidate(l)
  }

  method PickPercent(leaves: seq<Fixed32Leaf>) returns (best: Option<Float>, ghost at: nat)
    ensures best.None? <==> NoCandidate(leaves)
    ensures best.Some? ==> FirstShallowest(leaves, at) && best.value == FloatOfBits(leaves[at].bits)
  {
    best, at := None, 0;
    var depth := 0;
    for i := 0 to |leaves|
      invariant best.None? ==> forall j :: 0 <= j < i ==> !PercentCandidate(leaves[j])
      invariant best.Some? ==> FirstShallowest(leaves[..i], at) && depth == |leaves[at].path|
      invariant best.Some? ==> best.value == FloatOfBits(leaves[at].bits)
    {
      var l := leaves[i];
      assert leaves[..i + 1] == leaves[..i] + [l];
      var val := FloatOfBits(l.bits);
      if |l.path| == 0 || l.path[|l.path| - 1] != 1 || val.BelowZero() || val.AboveHundred() {
        continue;
      }
      if best.None? || |l.path| < depth {
        best, depth, at := Some(val), |l.path|, i;
      }
    }
    assert leaves[..|leaves|] == leaves;
  }

  // The reset time.

  /** A varint that reads as a plausible unix time after `now` (nanoseconds). */
  predicate FutureTime(l: VarintLeaf, now: int) {
    PLAUSIBLE_FROM <= l.value <= PLAUSIBLE_TO && l.value * NANOS > now
  }

  predicate ResetPath(l: VarintLeaf) {
    l.path == [1, 5, 1]
  }

  /** The future times among the leaves, in order. */
  function FutureTimes(leaves: seq<VarintLeaf>, now: int): seq<VarintLeaf> {
    if leaves == [] then []
    else
      var l := leaves[|leaves| - 1];
      FutureTimes(leaves[..|leaves| - 1], now) + if FutureTime(l, now) then [l] else []
  }

  /** t is the first future time at path [1,5,1] when there is one, and otherwise the earliest future time. */
  predicate IsReset(future: seq<VarintLeaf>, t: uint64) {
    if exists l :: l in future && ResetPath(l) then
      exists i :: 0 <= i < |future| && ResetPath(future[i]) && future[i].value == t
        && forall j :: 0 <= j < i ==> !ResetPath(future[j])
    else
      && (exists l :: l in future && l.value == t)
      && (forall l :: l in future ==> t <= l.value)
  }

  method PickReset(varints: seq<VarintLeaf>, now: int) returns (chosen: Option<uint64>)
    ensures chosen.None? <==> FutureTimes(varints, now) == []
    ensures chosen.Some? ==> IsReset(FutureTimes(varints, now), chosen.value)
  {
    var resets: seq<VarintLeaf> := [];
    for i := 0 to |varints|
      invariant resets == FutureTimes(varints[..i], now)
    {
      assert varints[..i + 1][..i] == varints[..i];
      if FutureTime(varints[i], now) {
        resets := resets + [varints[i]];
      }
    }
    assert varints[..|varints|] == varints;
    chosen := FirstOrEarliest(resets);
  }

  method FirstOrEarliest(resets: seq<VarintLeaf>) returns (chosen: Option<uint64>)
    ensures chosen.None? <==> resets == []
    ensures chosen.Some? ==> IsReset(resets, chosen.value)
  {
    for k := 0 to |resets|
      invariant forall m :: 0 <= m < k ==> !ResetPath(resets[m])
    {
      if ResetPath(resets[k]) {
        return Some(resets[k].value);
      }
    }
    if |resets| == 0 {
      return None;
    }
    var least := resets[0].value;
    for k := 1 to |resets|
      invariant exists m :: 0 <= m < k && resets[m].value == least
      invariant forall m :: 0 <= m < k ==> least <= resets[m].value
    {
      if resets[k].value < least {
        least := resets[k].value;
      }
    }
    chosen := Some(least);
  }

  // The whole reading.

  predicate UsagePeriodLeaf(l: VarintLeaf) {
    || (|l.path| >= 2 && l.path[0] == 1 && l.path[1] == 6)
    || (l.path == [1, 8, 1] && (l.value == 1 || l.value == 2))
  }

  predicate HasUsagePeriod(scan: Scan) {
    exists l :: l in scan.varints && UsagePeriodLeaf(l)
  }

  /** No percentage was sent because nothing was used yet: a usage period and a future reset, and no fixed32 at all. */
  predicate NoUsageYet(scan: Scan, now: int) {
    scan.fixed32 == [] && FutureTimes(scan.varints, now) != [] && HasUsagePeriod(scan)
  }

  /** The declarative meaning of a reading of the merged scan at a given time. */
  ghost predicate Reads(scan: Scan, now: int, p: Parse) {
    match p
    case ScanPanic => false
    case ParseFailed => NoCandidate(scan.fixed32) && !NoUsageYet(scan, now)
    case Parsed(Billing(percent, resetsAt)) =>
      && (if NoCandidate(scan.fixed32) then NoUsageYet(scan, now) && percent == Finite(0.0)
          else Reports(scan.fixed32, percent))
      && (resetsAt.None? <==> FutureTimes(scan.varints, now) == [])
      && (resetsAt.Some? ==> IsReset(FutureTimes(scan.varints, now), resetsAt.value))
  }

  predicate LooksLikeProtobuf(data: seq<byte>) {
    data != [] && data[0] / 8 > 0 && data[0] % 8 in [0, 1, 2, 5]
  }

  /** The payloads that get scanned: the data frames, or else the whole body when it could be a bare message. */
  function ScannedPayloads(data: seq<byte>): seq<seq<byte>> {
    if GrpcWebFrames.DataPayloads(data) == [] && LooksLikeProtobuf(data) then [data]
    else GrpcWebFrames.DataPayloads(data)
  }

  /** The merged scans of the payloads, each numbered from zero. */
  function MergedScan(payloads: seq<seq<byte>>): Outcome {
    if payloads == [] then Done(Scan([], []), 0)
    else
      match (MergedScan(payloads[..|payloads| - 1]), ScanBytes(payloads[|payloads| - 1], 0, [], 0))
      case (Done(before, _), Done(sub, _)) => Done(before.Merge(sub), 0)
      case _ => Panic
  }

  /** What a body means at a given time. */
  ghost predicate Parses(data: seq<byte>, now: int, p: Parse) {
    if ScannedPayloads(data) == [] then p == ParseFailed
    else
      match MergedScan(ScannedPayloads(data))
      case Panic => p == ScanPanic
      case Done(scan, _) => Reads(scan, now, p)
  }

  method ParseResponse(data: seq<byte>, now: int) returns (p: Parse)
    ensures Parses(data, now, p)
  {
    var payloads := GrpcWebFrames.DataFrames(data);
    if |payloads| == 0 && LooksLikeProtobuf(data) {
      payloads := [data];
    }
    if |payloads| == 0 {
      return ParseFailed;
    }
    var scan := Scan([], []);
    for i := 0 to |payloads|
      invariant MergedScan(payloads[..i]) == Done(scan, 0)
    {
      assert payloads[..i + 1][..i] == payloads[..i];
      var sub := ScanProtobuf(payloads[i], 0, [], 0);
      if sub.Panic? {
        PanicSpreads(payloads, i + 1);
        return ScanPanic;
      }
      scan := scan.Merge(sub.scan);
    }
    assert payloads[..|payloads|] == payloads;
    p := SelectBilling(scan, now);
  }

  lemma {:induction false} PanicSpreads(payloads: seq<seq<byte>>, i: nat)
    requires i <= |payloads| && MergedScan(payloads[..i]).Panic?
    ensures MergedScan(payloads).Panic?
    decreases |payloads| - i
  {
    if i < |payloads| {
      assert payloads[..i + 1][..i] == payloads[..i];
      PanicSpreads(payloads, i + 1);
    } else {
      assert payloads[..i] == payloads;
    }
  }

  /** Every payload counts, in order: one more adds its leaves behind those before, numbered from zero again. */
  lemma MergedScanOfMore(payloads: seq<seq<byte>>, more: seq<byte>)
    ensures MergedScan([]) == Done(Scan([], []), 0)
    ensures var all := MergedScan(payloads + [more]);
      && (all.Panic? <==> MergedScan(payloads).Panic? || ScanBytes(more, 0, [], 0).Panic?)
      && (all.Done? ==>
            && all.scan.varints == MergedScan(payloads).scan.varints + ScanBytes(more, 0, [], 0).scan.varints
            && all.scan.fixed32 == MergedScan(payloads).scan.fixed32 + ScanBytes(more, 0, [], 0).scan.fixed32)
  {
    hide ScanBytes;
    assert (payloads + [more])[..|payloads|] == payloads;
  }

  method SelectBilling(scan: Scan, now: int) returns (p: Parse)
    ensures Reads(scan, now, p)
  {
    var percent, at := PickPercent(scan.fixed32);
    var chosen := PickReset(scan.varints, now);
    var hasUsagePeriod := false;
    for i := 0 to |scan.varints|
      invariant hasUsagePeriod == exists j :: 0 <= j < i && UsagePeriodLeaf(scan.varints[j])
    {
      if UsagePeriodLeaf(scan.varints[i]) {
        hasUsagePeriod := true;
        break;
      }
    }
    if percent.None? {
      if |scan.fixed32| == 0 && chosen.Some? && hasUsagePeriod {
        percent := Some(Finite(0.0));
      } else {
        return ParseFailed;
      }
    }
    p := Parsed(Billing(percent.value, chosen));
  }

  /** The declarative meaning leaves nothing open: two readings of one scan at one time are the same. */
  lemma ReadingIsUnique(scan: Scan, now: int, p: Parse, q: Parse)
    requires Reads(scan, now, p) && Reads(scan, now, q)
    ensures p == q
  {
    hide NoCandidate;
    hide Reports;
    hide FutureTimes;
    hide IsReset;
    hide HasUsagePeriod;
    if p.Parsed? && q.Parsed? {
      if !NoCandidate(scan.fixed32) {
        ReportIsUnique(scan.fixed32, p.billing.usedPercent, q.billing.usedPercent);
      }
      if p.billing.resetsAt.Some? {
        ResetIsUnique(FutureTimes(scan.varints, now), p.billing.resetsAt.value, q.billing.resetsAt.value);
      }
    }
  }

  lemma ReportIsUnique(leaves: seq<Fixed32Leaf>, p: Float, q: Float)
    requires Reports(leaves, p) && Reports(leaves, q)
    ensures p == q
  {
    hide FloatOfBits;
    hide PercentCandidate;
    var i: nat :| FirstShallowest(leaves, i) && p == FloatOfBits(leaves[i].bits);
    var j: nat :| FirstShallowest(leaves, j) && q == FloatOfBits(leaves[j].bits);
    ShallowestIsUnique(leaves, i, j);
  }

  lemma ShallowestIsUnique(leaves: seq<Fixed32Leaf>, i: nat, j: nat)
    requires FirstShallowest(leaves, i) && FirstShallowest(leaves, j)
    ensures i == j
  {
    hide PercentCandidate;
  }

  lemma ResetIsUnique(future: seq<VarintLeaf>, s: uint64, t: uint64)
    requires IsReset(future, s) && IsReset(future, t)
    ensures s == t
  {
  }

  /** The bit patterns of NaNs: all exponent bits set, mantissa not zero. */
  predicate NaNBits(bits: uint32) {
    bits / 0x80_0000 % 0x100 == 0xFF && bits % 0x80_0000 != 0
  }

  /**
    The reported percentage is not always one. It lies in 0..100 exactly when the
    first shallowest candidate does not carry NaN bits, which pass both range tests.
   */
  lemma PercentInRangeIffNotNaN(scan: Scan, now: int, p: Parse)
    requires Reads(scan, now, p) && p.Parsed?
    ensures p.billing.usedPercent.IsPercent() <==>
      !exists i: nat :: FirstShallowest(scan.fixed32, i) && NaNBits(scan.fixed32[i].bits)
  {
    hide FutureTimes;
    hide NoUsageYet;
    ReportRange(scan.fixed32, p.billing.usedPercent);
  }

  // The single-precision reading, in terms of the bits.

  lemma {:induction false} PowersAdd(a: int, k: nat)
    ensures PowerOfTwo(a + k) == PowerOfTwo(a) * PowerOfTwo(k) && PowerOfTwo(k) >= 1.0 && PowerOfTwo(a) > 0.0
  {
    PowerIsPositive(a);
    if k > 0 {
      PowersAdd(a, k - 1);
      PowerDoubles(a + k - 1);
    }
  }

  lemma PowerDoubles(e: int)
    ensures PowerOfTwo(e + 1) == 2.0 * PowerOfTwo(e)
  {
  }

  lemma {:induction false} PowerIsPositive(e: int)
    ensures PowerOfTwo(e) > 0.0
    decreases if e < 0 then -e else e
  {
    if e > 0 {
      PowerIsPositive(e - 1);
    } else if e < 0 {
      PowerIsPositive(e + 1);
    }
  }

  /** The sign bit negates. */
  lemma SignNegates(bits: uint32)
    requires bits < 0x7F80_0000
    ensures FloatOfBits(bits).Finite? && FloatOfBits(bits).r >= 0.0
    ensures FloatOfBits(bits + 0x8000_0000) == Finite(-FloatOfBits(bits).r)
  {
    hide PowerOfTwo;
    SignBit(bits);
    PowerIsPositive(-149);
    PowerIsPositive(bits / 0x80_0000 % 0x100 - 150);
  }

  lemma SignBit(bits: uint32)
    requires bits < 0x8000_0000
    ensures bits / 0x8000_0000 == 0 && (bits + 0x8000_0000) / 0x8000_0000 == 1
    ensures (bits + 0x8000_0000) / 0x80_0000 % 0x100 == bits / 0x80_0000 % 0x100
    ensures (bits + 0x8000_0000) % 0x80_0000 == bits % 0x80_0000
  {
    assert (bits + 0x8000_0000) / 0x80_0000 == bits / 0x80_0000 + 0x100;
  }

  /** One more in the exponent doubles a normal number. */
  lemma ExponentDoubles(bits: uint32)
    requires 0x80_0000 <= bits < 0x7F00_0000
    ensures FloatOfBits(bits + 0x80_0000).Finite?
    ensures FloatOfBits(bits + 0x80_0000).r == 2.0 * FloatOfBits(bits).r
  {
    hide PowerOfTwo;
    var exponent: int := bits / 0x80_0000;
    assert (bits + 0x80_0000) / 0x80_0000 == exponent + 1 && (bits + 0x80_0000) % 0x80_0000 == bits % 0x80_0000;
    PowerDoubles(exponent - 150);
    Double((0x80_0000 + bits % 0x80_0000) as real, PowerOfTwo(exponent - 150));
  }

  lemma Double(m: real, p: real)
    ensures m * (2.0 * p) == 2.0 * (m * p)
  {
  }

  lemma Powers()
    ensures PowerOfTwo(-17) * 131072.0 == 1.0 && PowerOfTwo(6) == 64.0 && PowerOfTwo(7) == 128.0
    ensures PowerOfTwo(-18) * 262144.0 == 1.0 && PowerOfTwo(-23) * 8388608.0 == 1.0
  {
    assert PowerOfTwo(3) == 8.0;
    assert PowerOfTwo(6) == 8.0 * PowerOfTwo(3) by { PowersAdd(3, 3); }
    PowersAdd(-17, 17);
    PowersAdd(-18, 18);
    PowersAdd(-23, 23);
    PowersAdd(6, 6);
    PowersAdd(12, 5);
    PowersAdd(12, 6);
    PowersAdd(17, 6);
    PowerDoubles(17);
    hide PowerOfTwo;
  }

  /** The bits of one, fifty and a hundred. */
  lemma FloatsOfPercents()
    ensures FloatOfBits(0x3F80_0000) == Finite(1.0) && FloatOfBits(0x4248_0000) == Finite(50.0)
    ensures FloatOfBits(0x42C8_0000) == Finite(100.0)
  {
    Powers();
    hide PowerOfTwo;
    assert 0x3F80_0000 / 0x80_0000 % 0x100 == 127 && 0x4248_0000 / 0x80_0000 % 0x100 == 132 && 0x42C8_0000 / 0x80_0000 % 0x100 == 133;
  }

  /**
    The range tests in terms of the bits: what passes as a percentage is a pattern up
    to that of a hundred, the pattern of minus zero, or a NaN.
   */
  lemma PercentBits(bits: uint32)
    ensures !FloatOfBits(bits).BelowZero() && !FloatOfBits(bits).AboveHundred() <==>
      bits <= 0x42C8_0000 || bits == 0x8000_0000 || NaNBits(bits)
  {
    var negative, exponent: int, mantissa: int := bits / 0x8000_0000 == 1, bits / 0x80_0000 % 0x100, bits % 0x80_0000;
    if exponent == 0xFF {
    } else if negative {
      PowerIsPositive(-149);
      PowerIsPositive(exponent - 150);
      hide PowerOfTwo;
    } else {
      PositivePercent(exponent, mantissa);
      assert bits == exponent * 0x80_0000 + mantissa;
      hide PowerOfTwo;
    }
  }

  lemma PositivePercent(exponent: int, mantissa: int)
    requires 0 <= exponent < 0xFF && 0 <= mantissa < 0x80_0000
    ensures exponent == 0 ==> 0.0 <= mantissa as real * PowerOfTwo(-149) <= 100.0
    ensures exponent > 0 ==>
      && (0x80_0000 + mantissa) as real * PowerOfTwo(exponent - 150) >= 0.0
      && ((0x80_0000 + mantissa) as real * PowerOfTwo(exponent - 150) <= 100.0 <==>
            exponent < 133 || (exponent == 133 && mantissa <= 0x48_0000))
  {
    hide PowerOfTwo;
    Powers();
    PowerIsPositive(-149);
    PowerIsPositive(exponent - 150);
    if exponent == 0 {
      AtMostPower(-149, -18);
      Below(mantissa as real, PowerOfTwo(-149), PowerOfTwo(-18));
    } else if exponent < 133 {
      AtMostPower(exponent - 150, -18);
      Below((0x80_0000 + mantissa) as real, PowerOfTwo(exponent - 150), PowerOfTwo(-18));
    } else if exponent == 133 {
      At((0x80_0000 + mantissa) as real, PowerOfTwo(-17));
    } else {
      AtMostPower(-16, exponent - 150);
      PowerDoubles(-17);
      Above((0x80_0000 + mantissa) as real, PowerOfTwo(exponent - 150), PowerOfTwo(-16));
    }
  }

  lemma AtMostPower(a: int, b: int)
    requires a <= b
    ensures PowerOfTwo(a) <= PowerOfTwo(b)
  {
    hide PowerOfTwo;
    PowersAdd(a, b - a);
    var p, q, r := PowerOfTwo(a), PowerOfTwo(b - a), PowerOfTwo(b);
    assert r == p * q && p >= 0.0 && q >= 1.0;
    hide *;
    Grows(p, q, r);
  }

  lemma Grows(p: real, q: real, r: real)
    requires p >= 0.0 && q >= 1.0 && r == p * q
    ensures p <= r
  {
  }

  lemma At(m: real, p: real)
    requires p * 131072.0 == 1.0 && m >= 0.0
    ensures m * p >= 0.0
    ensures m * p <= 100.0 <==> m <= 13107200.0
  {
    assert m == (m * p) * 131072.0;
  }

  lemma Below(m: real, p: real, q: real)
    requires 0.0 <= m <= 16777216.0 && 0.0 < p <= q && q * 262144.0 == 1.0
    ensures 0.0 <= m * p <= 64.0
  {
    assert m * p <= m * q;
    assert m * q <= 16777216.0 * q;
  }

  lemma Above(m: real, p: real, q: real)
    requires m >= 8388608.0 && p >= q && q * 65536.0 == 1.0
    ensures m * p >= 128.0
  {
    assert m * p >= m * q;
    assert m * q >= 8388608.0 * q;
  }

  lemma ReportRange(leaves: seq<Fixed32Leaf>, p: Float)
    requires if NoCandidate(leaves) then p == Finite(0.0) else Reports(leaves, p)
    ensures p.IsPercent() <==> !exists i: nat :: FirstShallowest(leaves, i) && NaNBits(leaves[i].bits)
  {
    hide PowerOfTwo;
    if !NoCandidate(leaves) {
      var i: nat :| FirstShallowest(leaves, i) && p == FloatOfBits(leaves[i].bits);
      assert NaNBits(leaves[i].bits) <==> FloatOfBits(leaves[i].bits).NaN?;
      forall j: nat | FirstShallowest(leaves, j)
        ensures i == j
      {
        ShallowestIsUnique(leaves, i, j);
      }
    }
  }
}
