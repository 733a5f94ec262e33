/**
  Base-128 varints: the reader of server/internal/api/grok_client.go and the
  encoding it must invert (Protocol Buffers Encoding, "Base 128 Varints").
 */
module Varint {
  import opened Prelude

  const MAX_BYTES: nat := 10

  /** 128^k, the weight of the k-th digit. */
  function Weight(k: nat): (w: nat)
    ensures w >= 1
  {
    if k == 0 then 1 else 128 * Weight(k - 1)
  }

  /**
    The unbounded value of the varint at the front of s, and its length in
    bytes. None when no terminating byte shows up among the first `room` bytes.
   */
  function Digits(s: seq<byte>, room: nat): (r: Option<(nat, nat)>)
    ensures r.Some? ==> 1 <= r.value.1 <= |s| && r.value.1 <= room
    decreases |s|
  {
    if room == 0 || s == [] then None
    else if s[0] < 128 then Some((s[0], 1))
    else
      match Digits(s[1..], room - 1)
      case None => None
      case Some((v, n)) => Some((s[0] - 128 + 128 * v, n + 1))
  }

  /** What the reader yields for the bytes s: the value as a uint64, and the bytes it used. */
  function Read(s: seq<byte>): (r: Option<(uint64, nat)>)
    ensures r.Some? ==> 1 <= r.value.1 <= |s| && r.value.1 <= MAX_BYTES
  {
    match Digits(s, MAX_BYTES)
    case None => None
    case Some((v, n)) => Some((v % TWO64, n))
  }

  /** The canonical encoding: seven bits a byte, least significant first. */
  function Encode(n: nat): (s: seq<byte>)
    ensures |s| >= 1
    decreases n
  {
    if n < 128 then [n] else [128 + n % 128] + Encode(n / 128)
  }

  /** The reader uses every digit of a canonical encoding, whatever bytes follow it. */
  lemma {:induction false} DigitsOfEncode(n: nat, room: nat, rest: seq<byte>)
    requires room > 0 && n < Weight(room)
    ensures Digits(Encode(n) + rest, room) == Some((n, |Encode(n)|))
    decreases n
  {
    var s := Encode(n) + rest;
    if n >= 128 {
      assert Weight(1) == 128;
      assert s[1..] == Encode(n / 128) + rest;
      DigitsOfEncode(n / 128, room - 1, rest);
    }
  }

  lemma WeightOfTen()
    ensures Weight(9) == TWO63 && Weight(10) == 128 * TWO63
  {
    assert Weight(1) == 128;
    assert Weight(2) == 0x4000;
    assert Weight(3) == 0x20_0000;
    assert Weight(4) == 0x1000_0000;
    assert Weight(5) == 0x8_0000_0000;
    assert Weight(6) == 0x400_0000_0000;
    assert Weight(7) == 0x2_0000_0000_0000;
    assert Weight(8) == 0x100_0000_0000_0000;
  }

  /** The reader inverts the canonical encoding on all of uint64. */
  lemma ReadInvertsEncode(n: uint64, rest: seq<byte>)
    ensures Read(Encode(n) + rest) == Some((n, |Encode(n)|))
  {
    WeightOfTen();
    DigitsOfEncode(n, MAX_BYTES, rest);
  }

  /** A varint that is complete in s reads the same when more bytes follow s. */
  lemma {:induction false} DigitsIgnoreSuffix(s: seq<byte>, more: seq<byte>, room: nat)
    requires Digits(s, room).Some?
    ensures Digits(s + more, room) == Digits(s, room)
    decreases room
  {
    if s[0] >= 128 {
      assert (s + more)[1..] == s[1..] + more;
      DigitsIgnoreSuffix(s[1..], more, room - 1);
    }
  }

  lemma ReadIgnoresSuffix(s: seq<byte>, more: seq<byte>)
    requires Read(s).Some?
    ensures Read(s + more) == Read(s)
  {
    DigitsIgnoreSuffix(s, more, MAX_BYTES);
  }

  /**
    On 64-bit words, OR-ing a digit above the bits already read is addition.
    This is what lets the reader below write + for the source's |.
   */
  lemma OrIsSum(v: bv64, x: bv64)
    ensures v < 0x80 ==> v | (x << 7) == v + (x << 7)
    ensures v < 0x4000 ==> v | (x << 14) == v + (x << 14)
    ensures v < 0x20_0000 ==> v | (x << 21) == v + (x << 21)
    ensures v < 0x1000_0000 ==> v | (x << 28) == v + (x << 28)
    ensures v < 0x8_0000_0000 ==> v | (x << 35) == v + (x << 35)
    ensures v < 0x400_0000_0000 ==> v | (x << 42) == v + (x << 42)
    ensures v < 0x2_0000_0000_0000 ==> v | (x << 49) == v + (x << 49)
    ensures v < 0x100_0000_0000_0000 ==> v | (x << 56) == v + (x << 56)
    ensures v < 0x8000_0000_0000_0000 ==> v | (x << 63) == v + (x << 63)
  {
  }

  /** v | digit << 7*k on a uint64, for v below 2^(7*k): the shift drops what leaves 64 bits. */
  function OrDigit(v: uint64, digit: nat, k: nat): uint64 {
    (v + digit * Weight(k)) % TWO64
  }

  /** A value whose first k digits are v and whose remaining digits are r. */
  function Resume(v: nat, k: nat, r: Option<(nat, nat)>): Option<(nat, nat)> {
    match r
    case None => None
    case Some((w, n)) => Some((v + Weight(k) * w, k + n))
  }

  /** The reader itself: the caller's index becomes an in-parameter and an out-parameter. */
  method ReadVarint(b: seq<byte>, start: nat) returns (v: uint64, ok: bool, idx: nat)
    requires start <= |b|
    ensures ok ==> Read(b[start..]) == Some((v, idx - start))
    ensures !ok ==> Read(b[start..]) == None && v == 0
    ensures !ok ==> idx == if start + MAX_BYTES <= |b| then start + MAX_BYTES else |b|
    ensures start <= idx <= |b|
  {
    v, idx := 0, start;
    var k := 0;
    ghost var acc: nat := 0;
    ghost var whole := Digits(b[start..], MAX_BYTES);
    while idx < |b| && k < MAX_BYTES
      invariant start <= idx == start + k <= |b| && k <= MAX_BYTES
      invariant acc < Weight(k) && v == acc % TWO64
      invariant whole == Resume(acc, k, Digits(b[idx..], MAX_BYTES - k))
    {
      var x := b[idx];
      assert b[idx..][1..] == b[idx + 1..];
      acc := NextDigit(acc, v, b[idx..], k);
      v := OrDigit(v, x % 128, k);
      idx := idx + 1;
      if x < 128 {
        return v, true, idx;
      }
      k := k + 1;
    }
    v, ok := 0, false;
  }

  lemma Regroup(acc: nat, a: nat, d: nat, w: nat)
    ensures acc + a * (d + 128 * w) == (acc + d * a) + (128 * a) * w
  {
    assert a * (d + 128 * w) == d * a + (128 * a) * w;
  }

  lemma BelowNextWeight(acc: nat, d: nat, w: nat)
    requires acc < w && d < 128
    ensures 0 <= d * w && acc + d * w < 128 * w
  {
    assert d * w <= 127 * w;
  }

  lemma AddModulo(acc: nat, x: nat)
    ensures (acc % TWO64 + x) % TWO64 == (acc + x) % TWO64
  {
  }

  /** One byte moves from the unread digits to the accumulated ones. */
  lemma NextDigit(acc: nat, v: uint64, s: seq<byte>, k: nat) returns (acc': nat)
    requires k < MAX_BYTES && acc < Weight(k) && v == acc % TWO64 && s != []
    ensures acc' < Weight(k + 1) && OrDigit(v, s[0] % 128, k) == acc' % TWO64
    ensures Resume(acc, k, Digits(s, MAX_BYTES - k)) ==
      if s[0] < 128 then Some((acc', k + 1)) else Resume(acc', k + 1, Digits(s[1..], MAX_BYTES - k - 1))
  {
    hide Digits;
    hide Resume;
    var d := s[0] % 128;
    acc' := acc + d * Weight(k);
    BelowNextWeight(acc, d, Weight(k));
    OrDigitIsSum(acc, v, d, k);
    hide OrDigit;
    AfterDigit(acc, acc', s, k, Weight(k));
  }

  lemma OrDigitIsSum(acc: nat, v: uint64, digit: nat, k: nat)
    requires v == acc % TWO64
    ensures OrDigit(v, digit, k) == (acc + digit * Weight(k)) % TWO64
  {
    AddModulo(acc, digit * Weight(k));
  }

  lemma AfterDigit(acc: nat, acc': nat, s: seq<byte>, k: nat, a: nat)
    requires k < MAX_BYTES && s != [] && a == Weight(k) && acc' == acc + s[0] % 128 * a
    ensures Resume(acc, k, Digits(s, MAX_BYTES - k)) ==
      if s[0] < 128 then Some((acc', k + 1)) else Resume(acc', k + 1, Digits(s[1..], MAX_BYTES - k - 1))
  {
    if s[0] < 128 {
      Regroup(acc, a, s[0], 0);
    } else {
      match Digits(s[1..], MAX_BYTES - k - 1)
      case None =>
      case Some((w, n)) =>
        Regroup(acc, a, s[0] - 128, w);
        assert Weight(k + 1) == 128 * a;
    }
  }
}
