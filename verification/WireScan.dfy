/**
  The protobuf wire scanner of server/internal/api/grok_client.go: a walk over
  arbitrary bytes that records every varint and every fixed32 with its field
  path, descends into length-delimited fields, and moves on by one byte where
  no field can be read (Protocol Buffers Encoding, "Message Structure").
 */
module WireScan {
  import opened Prelude
  import Varint

  const MAX_DEPTH: nat := 4

  datatype VarintLeaf = VarintLeaf(path: seq<uint64>, value: uint64)
  datatype Fixed32Leaf = Fixed32Leaf(path: seq<uint64>, bits: uint32, order: nat)
  datatype Scan = Scan(fixed32: seq<Fixed32Leaf>, varints: seq<VarintLeaf>) {
    function Merge(o: Scan): Scan {
      Scan(fixed32 + o.fixed32, varints + o.varints)
    }
  }

  /** A scan either completes or dies on a slice expression whose bounds are out of order. */
  datatype Outcome = Panic | Done(scan: Scan, next: nat) {
    /** This outcome with the leaves of `first` in front of it. */
    function After(first: Scan): Outcome {
      match this
      case Panic => Panic
      case Done(scan, next) => Done(first.Merge(scan), next)
    }
  }

  /** What the bytes at the front of a message are taken for; `width` is what gets consumed. */
  datatype Field =
    | Junk
    | VarintField(num: uint64, value: uint64, width: nat)
    | Fixed64Field(num: uint64, width: nat)
    | Submessage(num: uint64, body: seq<byte>, width: nat)
    | Fixed32Field(num: uint64, bits: uint32, width: nat)
    | Overlong

  /** Conversion of a uint64 to a signed 64-bit int, as int(l) does it. */
  function AsInt64(l: uint64): int {
    if l < TWO63 then l else l - TWO64
  }

  function LittleEndian32(s: seq<byte>): uint32
    requires |s| == 4
  {
    var b0: int, b1: int, b2: int, b3: int := s[0], s[1], s[2], s[3];
    b0 + 0x100 * (b1 + 0x100 * (b2 + 0x100 * b3))
  }

  /** The field at the front of s. The slice of a length above the int range cannot be taken. */
  function FieldAt(s: seq<byte>): (f: Field)
    requires s != []
    ensures f.Submessage? ==> |f.body| + 2 <= f.width
    ensures f.VarintField? ==> f.width >= 2
    ensures f.Fixed32Field? ==> f.width >= 5
    ensures !f.Junk? && !f.Overlong? ==> 0 < f.width <= |s|
  {
    match Varint.Read(s)
    case None => Junk
    case Some((key, k)) =>
      var num, wire := key / 8, key % 8;
      var rest := s[k..];
      if key == 0 then Junk
      else if wire == 0 then
        match Varint.Read(rest)
        case None => Junk
        case Some((v, n)) => VarintField(num, v, k + n)
      else if wire == 1 then
        if |rest| >= 8 then Fixed64Field(num, k + 8) else Junk
      else if wire == 2 then
        match Varint.Read(rest)
        case None => Junk
        case Some((l, n)) =>
          if AsInt64(l) > |rest| - n then Junk
          else if AsInt64(l) < 0 then Overlong
          else Submessage(num, rest[n..n + l], k + n + l)
      else if wire == 5 then
        if |rest| >= 4 then Fixed32Field(num, LittleEndian32(rest[..4]), k + 4) else Junk
      else Junk
  }

  function Width(f: Field): nat
    requires !f.Overlong?
  {
    if f.Junk? then 1 else f.width
  }

  /** The scan of the bytes s: field after field, each nested message before what follows it. */
  function ScanBytes(s: seq<byte>, depth: nat, path: seq<uint64>, order: nat): Outcome
    decreases |s|, 0
  {
    if s == [] then Done(Scan([], []), order)
    else
      match Contribution(FieldAt(s), depth, path, order)
      case Panic => Panic
      case Done(found, next) => ScanBytes(s[Width(FieldAt(s))..], depth, path, next).After(found)
  }

  /** What one field of a message at this depth and path adds to the scan. */
  function Contribution(f: Field, depth: nat, path: seq<uint64>, order: nat): Outcome
    decreases if f.Submessage? then |f.body| else 0, 1
  {
    match f
    case Overlong => Panic
    case VarintField(num, v, _) => Done(Scan([], [VarintLeaf(path + [num], v)]), order)
    case Fixed32Field(num, bits, _) => Done(Scan([Fixed32Leaf(path + [num], bits, order)], []), order + 1)
    case Submessage(num, body, _) =>
      if depth < MAX_DEPTH then ScanBytes(body, depth + 1, path + [num], order) else Done(Scan([], []), order)
    case _ => Done(Scan([], []), order)
  }

  /** One pass of the scanner's switch: the field that starts at `start`, or the reason to resynchronise. */
  method ReadField(data: seq<byte>, start: nat) returns (f: Field)
    requires start < |data|
    ensures f == FieldAt(data[start..])
  {
    hide Varint.Read;
    hide LittleEndian32;
    ghost var s := data[start..];
    var key, ok, idx := Varint.ReadVarint(data, start);
    if !ok || key == 0 {
      return Junk;
    }
    var num, wire := key / 8, key % 8;
    ghost var rest := s[idx - start..];
    assert rest == data[idx..];
    if wire == 0 {
      var v, okValue, end := Varint.ReadVarint(data, idx);
      return if okValue then VarintField(num, v, end - start) else Junk;
    } else if wire == 1 {
      return if idx + 8 <= |data| then Fixed64Field(num, idx + 8 - start) else Junk;
    } else if wire == 2 {
      var l, okLength, begin := Varint.ReadVarint(data, idx);
      if !okLength || AsInt64(l) > |data| - begin {
        return Junk;
      }
      if AsInt64(l) < 0 {
        return Overlong;
      }
      ghost var n := begin - idx;
      assert Varint.Read(rest) == Some((l, n)) && n <= |rest| && AsInt64(l) == l <= |rest| - n;
      assert data[begin..begin + l] == rest[n..n + l];
      return Submessage(num, data[begin..begin + l], begin + l - start);
    } else if wire == 5 {
      if idx + 4 <= |data| {
        assert data[idx..idx + 4] == rest[..4];
        return Fixed32Field(num, LittleEndian32(data[idx..idx + 4]), idx + 4 - start);
      }
    }
    return Junk;
  }

  /**
    The scanner itself. The source's panic is an out-parameter; the leaves are
    accumulated in place, the nested scans merged where they occur.
   */
  method ScanProtobuf(data: seq<byte>, depth: nat, path: seq<uint64>, order: nat) returns (r: Outcome)
    ensures r == ScanBytes(data, depth, path, order)
    decreases |data|
  {
    hide FieldAt;
    hide AsInt64;
    var scan, idx, nextOrder := Scan([], []), 0, order;
    while idx < |data|
      invariant idx <= |data|
      invariant ScanBytes(data, depth, path, order) == ScanBytes(data[idx..], depth, path, nextOrder).After(scan)
    {
      var f := ReadField(data, idx);
      if f.Overlong? {
        return Panic;
      }
      var found, next := Scan([], []), nextOrder;
      if f.VarintField? {
        found := Scan([], [VarintLeaf(path + [f.num], f.value)]);
      } else if f.Submessage? && depth < MAX_DEPTH {
        var nested := ScanProtobuf(f.body, depth + 1, path + [f.num], nextOrder);
        if nested.Panic? {
          return Panic;
        }
        found, next := nested.scan, nested.next;
      } else if f.Fixed32Field? {
        found := Scan([Fixed32Leaf(path + [f.num], f.bits, nextOrder)], []);
        next := nextOrder + 1;
      }
      AfterField(data[idx..], depth, path, nextOrder, Done(found, next), scan);
      assert data[idx..][Width(f)..] == data[idx + Width(f)..];
      scan, nextOrder := scan.Merge(found), next;
      idx := idx + Width(f);
    }
    r := Done(scan, nextOrder);
  }

  /** Moving one field's leaves from the bytes ahead to the leaves collected so far. */
  lemma AfterField(s: seq<byte>, depth: nat, path: seq<uint64>, order: nat, found: Outcome, before: Scan)
    requires s != [] && found.Done? && Contribution(FieldAt(s), depth, path, order) == found
    ensures ScanBytes(s, depth, path, order).After(before)
         == ScanBytes(s[Width(FieldAt(s))..], depth, path, found.next).After(before.Merge(found.scan))
  {
    hide FieldAt;
    AfterAfter(ScanBytes(s[Width(FieldAt(s))..], depth, path, found.next), before, found.scan);
  }

  lemma AfterAfter(o: Outcome, first: Scan, second: Scan)
    ensures o.After(second).After(first) == o.After(first.Merge(second))
  {
    if o.Done? {
      assert first.fixed32 + (second.fixed32 + o.scan.fixed32) == (first.fixed32 + second.fixed32) + o.scan.fixed32;
      assert first.varints + (second.varints + o.scan.varints) == (first.varints + second.varints) + o.scan.varints;
    }
  }
}
