/**
  Protobuf messages as trees, their wire encoding (Protocol Buffers Encoding,
  "Message Structure" and "Submessages"), and the theorem that the scanner reads
  an encoded message back as the leaves of its tree.
 */
module WireTree {
  import opened Prelude
  import opened WireScan
  import Varint

  datatype Node =
    | VarintNode(num: uint64, value: uint64)
    | Fixed64Node(num: uint64, payload: seq<byte>)
    | Fixed32Node(num: uint64, bits: uint32)
    | MessageNode(num: uint64, fields: seq<Node>)

  const MAX_FIELD_NUMBER: int := 0x1FFF_FFFF_FFFF_FFFF

  /** A message the encoding can express: field numbers fit the key, lengths fit a Go int. */
  predicate WellFormed(fields: seq<Node>)
    decreases fields, 0
  {
    fields == [] || (WellFormedNode(fields[0]) && WellFormed(fields[1..]))
  }

  predicate WellFormedNode(node: Node)
    decreases node, 1
  {
    && 1 <= node.num <= MAX_FIELD_NUMBER
    && (node.Fixed64Node? ==> |node.payload| == 8)
    && (node.MessageNode? ==> WellFormed(node.fields) && |Encode(node.fields)| < TWO63)
  }

  function Key(num: nat, wire: nat): nat {
    8 * num + wire
  }

  function Encode(fields: seq<Node>): seq<byte>
    decreases fields, 0
  {
    if fields == [] then [] else EncodeNode(fields[0]) + Encode(fields[1..])
  }

  function EncodeNode(node: Node): seq<byte>
    decreases node, 1
  {
    match node
    case VarintNode(num, v) => Varint.Encode(Key(num, 0)) + Varint.Encode(v)
    case Fixed64Node(num, payload) => Varint.Encode(Key(num, 1)) + payload
    case MessageNode(num, fields) =>
      Varint.Encode(Key(num, 2)) + (Varint.Encode(|Encode(fields)|) + Encode(fields))
    case Fixed32Node(num, bits) => Varint.Encode(Key(num, 5)) + Bytes32(bits)
  }

  function Bytes32(bits: uint32): (s: seq<byte>)
    ensures |s| == 4
  {
    var high := bits / 0x100;
    [bits % 0x100, high % 0x100, high / 0x100 % 0x100, high / 0x100 / 0x100]
  }

  /** A scalar leaf with its full field path; the scanner keeps varints and fixed32s. */
  datatype Leaf = V(path: seq<uint64>, value: uint64) | F(path: seq<uint64>, bits: uint32)

  /** The varint and fixed32 leaves of a message in document order, at any depth. */
  function Leaves(fields: seq<Node>, path: seq<uint64>): seq<Leaf>
    decreases fields, 0
  {
    if fields == [] then [] else LeavesOf(fields[0], path) + Leaves(fields[1..], path)
  }

  function LeavesOf(node: Node, path: seq<uint64>): seq<Leaf>
    decreases node, 1
  {
    match node
    case VarintNode(num, v) => [V(path + [num], v)]
    case Fixed32Node(num, bits) => [F(path + [num], bits)]
    case Fixed64Node(_, _) => []
    case MessageNode(num, fields) => Leaves(fields, path + [num])
  }

  /** The varint leaves of a list whose paths have at most five field numbers. */
  function VarintsOf(leaves: seq<Leaf>): seq<VarintLeaf> {
    if leaves == [] then []
    else if leaves[0].V? && |leaves[0].path| <= 5 then
      [VarintLeaf(leaves[0].path, leaves[0].value)] + VarintsOf(leaves[1..])
    else VarintsOf(leaves[1..])
  }

  /** The fixed32 leaves of a list within that depth, numbered from `order`. */
  function Fixed32sOf(leaves: seq<Leaf>, order: nat): seq<Fixed32Leaf> {
    if leaves == [] then []
    else if leaves[0].F? && |leaves[0].path| <= 5 then
      [Fixed32Leaf(leaves[0].path, leaves[0].bits, order)] + Fixed32sOf(leaves[1..], order + 1)
    else Fixed32sOf(leaves[1..], order)
  }

  lemma {:induction false} VarintsOfAppend(a: seq<Leaf>, b: seq<Leaf>)
    ensures VarintsOf(a + b) == VarintsOf(a) + VarintsOf(b)
  {
    if a == [] {
      assert a + b == b;
    } else {
      assert (a + b)[1..] == a[1..] + b;
      VarintsOfAppend(a[1..], b);
    }
  }

  lemma {:induction false} Fixed32sOfAppend(a: seq<Leaf>, b: seq<Leaf>, order: nat)
    ensures Fixed32sOf(a + b, order) == Fixed32sOf(a, order) + Fixed32sOf(b, order + |Fixed32sOf(a, order)|)
  {
    if a == [] {
      assert a + b == b;
    } else {
      assert (a + b)[1..] == a[1..] + b;
      Fixed32sOfAppend(a[1..], b, if a[0].F? && |a[0].path| <= 5 then order + 1 else order);
    }
  }

  /** Leaves whose paths are all too deep leave no trace. */
  lemma {:induction false} TooDeep(leaves: seq<Leaf>, order: nat)
    requires forall l :: l in leaves ==> |l.path| > 5
    ensures VarintsOf(leaves) == [] && Fixed32sOf(leaves, order) == []
  {
    if leaves != [] {
      assert leaves[0] in leaves;
      TooDeep(leaves[1..], order);
    }
  }

  lemma {:induction false} LeavesAreDeeper(fields: seq<Node>, path: seq<uint64>)
    ensures forall l :: l in Leaves(fields, path) ==> |l.path| > |path|
    decreases fields, 0
  {
    if fields != [] {
      LeavesOfAreDeeper(fields[0], path);
      LeavesAreDeeper(fields[1..], path);
    }
  }

  lemma {:induction false} LeavesOfAreDeeper(node: Node, path: seq<uint64>)
    ensures forall l :: l in LeavesOf(node, path) ==> |l.path| > |path|
    decreases node, 1
  {
    if node.MessageNode? {
      LeavesAreDeeper(node.fields, path + [node.num]);
    }
  }

  /** The field the scanner reads off the front of an encoded node. */
  function FieldOf(node: Node): Field
    requires WellFormedNode(node)
  {
    match node
    case VarintNode(num, v) => VarintField(num, v, |EncodeNode(node)|)
    case Fixed64Node(num, _) => Fixed64Field(num, |EncodeNode(node)|)
    case Fixed32Node(num, bits) => Fixed32Field(num, bits, |EncodeNode(node)|)
    case MessageNode(num, fields) => Submessage(num, Encode(fields), |EncodeNode(node)|)
  }

  function WireType(node: Node): nat {
    match node
    case VarintNode(_, _) => 0
    case Fixed64Node(_, _) => 1
    case MessageNode(_, _) => 2
    case Fixed32Node(_, _) => 5
  }

  /** The bytes of a node after its key. */
  function Payload(node: Node): seq<byte> {
    match node
    case VarintNode(_, v) => Varint.Encode(v)
    case Fixed64Node(_, payload) => payload
    case MessageNode(_, fields) => Varint.Encode(|Encode(fields)|) + Encode(fields)
    case Fixed32Node(_, bits) => Bytes32(bits)
  }

  /** What the bytes after the key read as. */
  lemma PayloadReads(node: Node, rest: seq<byte>)
    requires WellFormedNode(node)
    ensures var payload, p := Payload(node), Payload(node) + rest;
      match node
      case VarintNode(_, v) => Varint.Read(p) == Some((v, |payload|))
      case Fixed64Node(_, _) => |payload| == 8
      case Fixed32Node(_, bits) => |payload| == 4 && LittleEndian32(p[..4]) == bits
      case MessageNode(_, fields) =>
        var body, n := Encode(fields), |Varint.Encode(|Encode(fields)|)|;
        |payload| == n + |body| && Varint.Read(p) == Some((|body|, n)) && p[n..n + |body|] == body
  {
    hide Varint.Read;
    hide Varint.Encode;
    hide Bytes32;
    hide LittleEndian32;
    var p := Payload(node) + rest;
    match node
    case VarintNode(_, v) => Varint.ReadInvertsEncode(v, rest);
    case Fixed64Node(_, _) =>
    case Fixed32Node(_, bits) =>
      assert p[..4] == Payload(node);
      Bytes32RoundTrip(bits);
    case MessageNode(_, fields) =>
      var body := Encode(fields);
      assert p == Varint.Encode(|body|) + (body + rest);
      Varint.ReadInvertsEncode(|body|, body + rest);
  }

  /** Reading the front of an encoded node recovers the node's field, whatever follows. */
  lemma FieldAtNode(node: Node, rest: seq<byte>)
    requires WellFormedNode(node)
    ensures FieldAt(EncodeNode(node) + rest) == FieldOf(node)
  {
    var s, key, payload := EncodeNode(node) + rest, Key(node.num, WireType(node)), Payload(node);
    assert EncodeNode(node) == Varint.Encode(key) + payload;
    assert s == Varint.Encode(key) + (payload + rest);
    KeySplits(node.num, WireType(node));
    hide *;
    Varint.ReadInvertsEncode(key, payload + rest);
    assert s[|Varint.Encode(key)|..] == payload + rest;
    FieldBehindKey(node, rest, s, |Varint.Encode(key)|);
  }

  lemma KeySplits(num: nat, wire: nat)
    requires wire < 8
    ensures Key(num, wire) / 8 == num && Key(num, wire) % 8 == wire
  {
  }

  lemma FieldBehindKey(node: Node, rest: seq<byte>, s: seq<byte>, k: nat)
    requires WellFormedNode(node) && k <= |s| && s != [] && s[k..] == Payload(node) + rest
    requires Varint.Read(s) == Some((Key(node.num, WireType(node)), k)) && |EncodeNode(node)| == k + |Payload(node)|
    ensures FieldAt(s) == FieldOf(node)
  {
    hide Varint.Read;
    hide Varint.Encode;
    hide EncodeNode;
    hide Payload;
    hide Encode;
    hide LittleEndian32;
    PayloadReads(node, rest);
    KeySplits(node.num, WireType(node));
    hide Key;
  }

  lemma Bytes32RoundTrip(bits: uint32)
    ensures LittleEndian32(Bytes32(bits)) == bits
  {
  }

  /** What the leaves under `path` amount to as a scan. */
  function ScanOf(leaves: seq<Leaf>, order: nat): Scan {
    Scan(Fixed32sOf(leaves, order), VarintsOf(leaves))
  }

  /**
    The round trip. Scanning an encoded message yields exactly its varint and
    fixed32 leaves, in document order, with full field paths, cut where a path
    has more than five field numbers.
   */
  lemma {:induction false} ScanOfEncode(fields: seq<Node>, path: seq<uint64>, order: nat)
    requires WellFormed(fields) && |path| <= 4
    ensures ScanBytes(Encode(fields), |path|, path, order)
         == Done(ScanOf(Leaves(fields, path), order), order + |Fixed32sOf(Leaves(fields, path), order)|)
    decreases fields, 0
  {
    hide ScanBytes;
    hide Contribution;
    hide FieldOf;
    hide EncodeNode;
    hide LeavesOf;
    hide VarintsOf;
    hide Fixed32sOf;
    hide ScanOf;
    if fields == [] {
      NothingToScan(path, order);
    } else {
      var node, more := fields[0], fields[1..];
      ContributionOfNode(node, path, order);
      ScanOfEncode(more, path, order + |Fixed32sOf(LeavesOf(node, path), order)|);
      ScanOfCons(node, Encode(more), Leaves(more, path), path, order);
    }
  }

  lemma NothingToScan(path: seq<uint64>, order: nat)
    ensures ScanBytes([], |path|, path, order) == Done(ScanOf([], order), order + |Fixed32sOf([], order)|)
  {
  }

  /** One encoded node in front of bytes whose scan is known. */
  lemma ScanOfCons(node: Node, rest: seq<byte>, after: seq<Leaf>, path: seq<uint64>, order: nat)
    requires WellFormedNode(node)
    requires Contribution(FieldOf(node), |path|, path, order)
          == Done(ScanOf(LeavesOf(node, path), order), order + |Fixed32sOf(LeavesOf(node, path), order)|)
    requires var next := order + |Fixed32sOf(LeavesOf(node, path), order)|;
      ScanBytes(rest, |path|, path, next) == Done(ScanOf(after, next), next + |Fixed32sOf(after, next)|)
    ensures var all := LeavesOf(node, path) + after;
      ScanBytes(EncodeNode(node) + rest, |path|, path, order)
      == Done(ScanOf(all, order), order + |Fixed32sOf(all, order)|)
  {
    hide ScanBytes;
    hide Contribution;
    hide FieldAt;
    hide EncodeNode;
    hide LeavesOf;
    hide VarintsOf;
    hide Fixed32sOf;
    var s := EncodeNode(node) + rest;
    FieldAtNode(node, rest);
    assert s[|EncodeNode(node)|..] == rest;
    FirstFieldThenRest(s, |path|, path, order);
    VarintsOfAppend(LeavesOf(node, path), after);
    Fixed32sOfAppend(LeavesOf(node, path), after, order);
  }

  lemma FirstFieldThenRest(s: seq<byte>, depth: nat, path: seq<uint64>, order: nat)
    requires s != [] && Contribution(FieldAt(s), depth, path, order).Done?
    ensures var Done(found, next) := Contribution(FieldAt(s), depth, path, order);
      ScanBytes(s, depth, path, order) == ScanBytes(s[Width(FieldAt(s))..], depth, path, next).After(found)
  {
    hide FieldAt;
  }

  lemma {:induction false} ContributionOfNode(node: Node, path: seq<uint64>, order: nat)
    requires WellFormedNode(node) && |path| <= 4
    ensures Contribution(FieldOf(node), |path|, path, order)
         == Done(ScanOf(LeavesOf(node, path), order), order + |Fixed32sOf(LeavesOf(node, path), order)|)
    decreases node, 1
  {
    hide ScanBytes;
    hide Encode;
    hide EncodeNode;
    hide Leaves;
    hide VarintsOf;
    hide Fixed32sOf;
    NoLeaves(order);
    if node.MessageNode? {
      if |path| < 4 {
        ScanOfEncode(node.fields, path + [node.num], order);
      } else {
        LeavesAreDeeper(node.fields, path + [node.num]);
        TooDeep(LeavesOf(node, path), order);
      }
    } else if !node.Fixed64Node? {
      OneLeaf(LeavesOf(node, path)[0], order);
    }
  }

  lemma NoLeaves(order: nat)
    ensures VarintsOf([]) == [] && Fixed32sOf([], order) == []
  {
  }

  lemma OneLeaf(l: Leaf, order: nat)
    requires |l.path| <= 5
    ensures VarintsOf([l]) == if l.V? then [VarintLeaf(l.path, l.value)] else []
    ensures Fixed32sOf([l], order) == if l.F? then [Fixed32Leaf(l.path, l.bits, order)] else []
  {
    assert [l][1..] == [];
    assert VarintsOf([]) == [] && Fixed32sOf([], order) == [] && Fixed32sOf([], order + 1) == [];
  }

  predicate HoldsBits(leaves: seq<Fixed32Leaf>, p: seq<uint64>, bits: uint32) {
    exists i :: 0 <= i < |leaves| && leaves[i].path == p && leaves[i].bits == bits
  }

  /** Nothing shallow enough is missed and nothing else is made up: a leaf is scanned iff its path has at most five field numbers. */
  lemma ScanKeepsLeavesOfFive(fields: seq<Node>, p: seq<uint64>, value: uint64, bits: uint32)
    requires WellFormed(fields)
    ensures ScanBytes(Encode(fields), 0, [], 0).Done?
    ensures var scan, leaves := ScanBytes(Encode(fields), 0, [], 0).scan, Leaves(fields, []);
      && (VarintLeaf(p, value) in scan.varints <==> V(p, value) in leaves && |p| <= 5)
      && (HoldsBits(scan.fixed32, p, bits) <==> F(p, bits) in leaves && |p| <= 5)
  {
    hide ScanBytes;
    hide Encode;
    hide Leaves;
    hide VarintsOf;
    hide Fixed32sOf;
    hide HoldsBits;
    ScanOfEncode(fields, [], 0);
    VarintIsKept(Leaves(fields, []), p, value);
    Fixed32IsKept(Leaves(fields, []), 0, p, bits);
  }

  lemma {:induction false} VarintIsKept(leaves: seq<Leaf>, p: seq<uint64>, value: uint64)
    ensures VarintLeaf(p, value) in VarintsOf(leaves) <==> V(p, value) in leaves && |p| <= 5
  {
    if leaves != [] {
      VarintIsKept(leaves[1..], p, value);
      assert leaves == [leaves[0]] + leaves[1..];
    }
  }

  lemma {:induction false} Fixed32IsKept(leaves: seq<Leaf>, order: nat, p: seq<uint64>, bits: uint32)
    ensures HoldsBits(Fixed32sOf(leaves, order), p, bits) <==> F(p, bits) in leaves && |p| <= 5
  {
    if leaves != [] {
      assert leaves == [leaves[0]] + leaves[1..];
      if leaves[0].F? && |leaves[0].path| <= 5 {
        Fixed32IsKept(leaves[1..], order + 1, p, bits);
        HoldsOneMore(Fixed32Leaf(leaves[0].path, leaves[0].bits, order), Fixed32sOf(leaves[1..], order + 1), p, bits);
        hide HoldsBits;
      } else {
        Fixed32IsKept(leaves[1..], order, p, bits);
        hide HoldsBits;
      }
    }
  }

  lemma HoldsOneMore(l: Fixed32Leaf, leaves: seq<Fixed32Leaf>, p: seq<uint64>, bits: uint32)
    ensures HoldsBits([l] + leaves, p, bits) <==> (l.path == p && l.bits == bits) || HoldsBits(leaves, p, bits)
  {
    var all := [l] + leaves;
    assert all[0] == l;
    assert forall i :: 0 <= i < |leaves| ==> all[i + 1] == leaves[i];
    if i :| 0 <= i < |all| && all[i].path == p && all[i].bits == bits {
      assert i > 0 ==> leaves[i - 1] == all[i];
    }
  }

  /** Encodings the standard spells out: field 1 with the varint 150, a nested one, and the bytes of a fixed32. */
  lemma EncodingsByExample()
    ensures Encode([VarintNode(1, 150)]) == [0x08, 0x96, 0x01]
    ensures Encode([MessageNode(3, [VarintNode(1, 150)])]) == [0x1A, 0x03, 0x08, 0x96, 0x01]
    ensures Encode([Fixed32Node(1, 0x3F80_0000)]) == [0x0D, 0x00, 0x00, 0x80, 0x3F]
  {
    var a, b, d := VarintNode(1, 150), MessageNode(3, [VarintNode(1, 150)]), Fixed32Node(1, 0x3F80_0000);
    assert [a][1..] == [] && [b][1..] == [] && [d][1..] == [];
    assert Varint.Encode(150) == [0x96, 0x01] by { assert Varint.Encode(1) == [1]; }
    assert Varint.Encode(Key(1, 0)) == [0x08] && Varint.Encode(Key(3, 2)) == [0x1A] && Varint.Encode(Key(1, 5)) == [0x0D];
    assert Varint.Encode(3) == [0x03];
    hide Varint.Encode;
    assert Encode([a]) == EncodeNode(a) + Encode([a][1..]) == [0x08, 0x96, 0x01];
    assert EncodeNode(b) == [0x1A] + ([0x03] + [0x08, 0x96, 0x01]);
    assert Encode([b]) == EncodeNode(b) + Encode([b][1..]);
    assert Encode([d]) == EncodeNode(d) + Encode([d][1..]);
  }

  // Resynchronisation.

  /** Fields in front of anything else: their leaves first, then the scan of the rest. */
  lemma {:induction false} ScanOfEncodeThen(fields: seq<Node>, rest: seq<byte>, path: seq<uint64>, order: nat)
    requires WellFormed(fields) && |path| <= 4
    ensures ScanBytes(Encode(fields) + rest, |path|, path, order)
         == ScanBytes(rest, |path|, path, order + |Fixed32sOf(Leaves(fields, path), order)|).After(ScanOf(Leaves(fields, path), order))
    decreases |fields|
  {
    hide ScanBytes;
    hide Contribution;
    hide FieldAt;
    hide FieldOf;
    hide EncodeNode;
    hide LeavesOf;
    if fields == [] {
      assert Encode(fields) + rest == rest;
    } else {
      hide VarintsOf;
      hide Fixed32sOf;
      var node, more := fields[0], fields[1..];
      var next := order + |Fixed32sOf(LeavesOf(node, path), order)|;
      var s := EncodeNode(node) + (Encode(more) + rest);
      assert Encode(fields) + rest == s;
      ContributionOfNode(node, path, order);
      FieldAtNode(node, Encode(more) + rest);
      NodeWidth(node);
      assert s != [] && s[|EncodeNode(node)|..] == Encode(more) + rest;
      FirstFieldThenRest(s, |path|, path, order);
      ScanOfEncodeThen(more, rest, path, next);
      VarintsOfAppend(LeavesOf(node, path), Leaves(more, path));
      Fixed32sOfAppend(LeavesOf(node, path), Leaves(more, path), order);
      AfterAfter(ScanBytes(rest, |path|, path, next + |Fixed32sOf(Leaves(more, path), next)|),
                 ScanOf(LeavesOf(node, path), order), ScanOf(Leaves(more, path), next));
    }
  }

  lemma NodeWidth(node: Node)
    requires WellFormedNode(node)
    ensures !FieldOf(node).Overlong? && Width(FieldOf(node)) == |EncodeNode(node)| > 0
  {
    hide Varint.Encode;
  }

  /** A byte that cannot begin a field: zero, or a field key of a wire type the scanner does not know. */
  predicate Stray(b: byte) {
    b == 0 || (b < 0x80 && b % 8 in {3, 4, 6, 7})
  }

  lemma {:induction false} StraysAreSkipped(strays: seq<byte>, rest: seq<byte>, depth: nat, path: seq<uint64>, order: nat)
    requires forall b :: b in strays ==> Stray(b)
    ensures ScanBytes(strays + rest, depth, path, order) == ScanBytes(rest, depth, path, order)
  {
    if strays == [] {
      assert strays + rest == rest;
    } else {
      var s, b := strays + rest, strays[0];
      assert b in strays && s[0] == b && s[1..] == strays[1..] + rest;
      StrayIsJunk(s);
      hide *;
      JunkFirst(s, depth, path, order);
      StraysAreSkipped(strays[1..], rest, depth, path, order);
    }
  }

  lemma JunkFirst(s: seq<byte>, depth: nat, path: seq<uint64>, order: nat)
    requires s != [] && FieldAt(s) == Junk
    ensures ScanBytes(s, depth, path, order) == ScanBytes(s[1..], depth, path, order)
  {
    FirstFieldThenRest(s, depth, path, order);
    hide ScanBytes;
    hide FieldAt;
  }

  lemma StrayIsJunk(s: seq<byte>)
    requires s != [] && Stray(s[0])
    ensures FieldAt(s) == Junk
  {
    assert Varint.Read(s) == Some((s[0], 1));
  }

  /** The walk picks up again right behind stray bytes between two runs of fields, and loses none of their leaves. */
  lemma ScanResynchronises(before: seq<Node>, strays: seq<byte>, after: seq<Node>)
    requires WellFormed(before) && WellFormed(after) && forall b :: b in strays ==> Stray(b)
    ensures ScanBytes(Encode(before) + strays + Encode(after), 0, [], 0).Done?
    ensures ScanBytes(Encode(before) + strays + Encode(after), 0, [], 0).scan == ScanOf(Leaves(before, []) + Leaves(after, []), 0)
  {
    hide ScanBytes;
    hide Encode;
    hide Leaves;
    hide VarintsOf;
    hide Fixed32sOf;
    var next := |Fixed32sOf(Leaves(before, []), 0)|;
    assert Encode(before) + strays + Encode(after) == Encode(before) + (strays + Encode(after));
    ScanOfEncodeThen(before, strays + Encode(after), [], 0);
    StraysAreSkipped(strays, Encode(after), 0, [], next);
    ScanOfEncode(after, [], next);
    VarintsOfAppend(Leaves(before, []), Leaves(after, []));
    Fixed32sOfAppend(Leaves(before, []), Leaves(after, []), 0);
  }
}
