/** The layers together: a framed, encoded message is read as its tree says. */
module GrokReply {
  import opened Prelude
  import opened GrpcWebFrames
  import opened GrokBilling
  import WireScan
  import WireTree
  import Varint

  /** A reply as a server frames it: one data frame, then the trailers. */
  function ReplyFrames(message: seq<byte>, trailer: seq<byte>): seq<Frame> {
    [Frame(0, message), Frame(0x80, trailer)]
  }

  /**
    For every well-formed message and every trailer, what gets read off the
    framed reply is the reading of the message's leaves, and the trailer text
    reaches the trailer walker alone.
   */
  lemma ReplyReadsItsTree(fields: seq<WireTree.Node>, trailer: seq<byte>)
    requires WireTree.WellFormed(fields) && |WireTree.Encode(fields)| < TWO32 && |trailer| < TWO32
    ensures var data := EncodeFrames(ReplyFrames(WireTree.Encode(fields), trailer));
      && ScannedPayloads(data) == [WireTree.Encode(fields)]
      && MergedScan(ScannedPayloads(data)) == WireScan.Done(WireTree.ScanOf(WireTree.Leaves(fields, []), 0), 0)
      && TrailerTexts(data) == [trailer]
  {
    hide EncodeFrames;
    hide WireTree.Encode;
    hide WireTree.Leaves;
    hide WireScan.ScanBytes;
    var message := WireTree.Encode(fields);
    var frames := ReplyFrames(message, trailer);
    var data := EncodeFrames(frames);
    FrameRoundTrip(frames, []);
    assert data + [] == data;
    ReplyPayloads(message, trailer);
    WireTree.ScanOfEncode(fields, [], 0);
    OnePayload(message);
  }

  lemma ReplyPayloads(message: seq<byte>, trailer: seq<byte>)
    ensures Payloads(ReplyFrames(message, trailer), false) == [message]
    ensures Payloads(ReplyFrames(message, trailer), true) == [trailer]
  {
    var frames := ReplyFrames(message, trailer);
    var second := frames[1..];
    assert second == [Frame(0x80, trailer)] && second[1..] == [];
    assert forall trailers :: Payloads(second[1..], trailers) == [];
    assert Payloads(second, false) == [] && Payloads(second, true) == [trailer];
  }

  lemma OnePayload(message: seq<byte>)
    requires WireScan.ScanBytes(message, 0, [], 0).Done?
    ensures MergedScan([message]) == WireScan.Done(WireScan.ScanBytes(message, 0, [], 0).scan, 0)
  {
    hide WireScan.ScanBytes;
    assert [message][..0] == [];
    var scan := WireScan.ScanBytes(message, 0, [], 0).scan;
    assert WireScan.Scan([], []).Merge(scan) == scan;
  }

  // Whole replies, from the bytes to the reading.

  function Framed(fields: seq<WireTree.Node>, trailer: seq<byte>): seq<byte>
    requires |WireTree.Encode(fields)| < TWO32 && |trailer| < TWO32
  {
    EncodeFrames(ReplyFrames(WireTree.Encode(fields), trailer))
  }

  /** A reading that fits the leaves of the message is the reading of its framed reply, and the only one. */
  lemma LeavesDecide(fields: seq<WireTree.Node>, trailer: seq<byte>, now: int, p: Parse, q: Parse)
    requires WireTree.WellFormed(fields) && |WireTree.Encode(fields)| < TWO32 && |trailer| < TWO32
    requires Parses(Framed(fields, trailer), now, p)
    requires Reads(WireTree.ScanOf(WireTree.Leaves(fields, []), 0), now, q)
    ensures p == q
  {
    hide EncodeFrames;
    hide ReplyFrames;
    hide Reads;
    hide WireTree.WellFormed;
    hide WireTree.Leaves;
    hide WireTree.ScanOf;
    ReplyReadsItsTree(fields, trailer);
    hide MergedScan;
    hide ScannedPayloads;
    ReadingIsUnique(WireTree.ScanOf(WireTree.Leaves(fields, []), 0), now, p, q);
  }

  /** Used percentage at 1.1, reset time at 1.5.1. */
  function UsageNodes(bits: uint32, time: uint64): seq<WireTree.Node> {
    [WireTree.MessageNode(1, [WireTree.Fixed32Node(1, bits), WireTree.MessageNode(5, [WireTree.VarintNode(1, time)])])]
  }

  /** Some value at 1.6.1 or 1.8.1 and a reset time at 1.5.1, and no percentage. */
  function UnusedNodes(field: uint64, period: uint64, time: uint64): seq<WireTree.Node> {
    [WireTree.MessageNode(1, [WireTree.MessageNode(field, [WireTree.VarintNode(1, period)]),
                              WireTree.MessageNode(5, [WireTree.VarintNode(1, time)])])]
  }

  /** Used percentage at 1, two times at 2 and 3. */
  function FlatNodes(bits: uint32, first: uint64, second: uint64): seq<WireTree.Node> {
    [WireTree.Fixed32Node(1, bits), WireTree.VarintNode(2, first), WireTree.VarintNode(3, second)]
  }

  lemma EncodeIsShort(n: uint64)
    ensures |Varint.Encode(n)| <= 10
  {
    Varint.ReadInvertsEncode(n, []);
  }

  lemma {:induction false} NodeIsShort(node: WireTree.Node)
    requires 1 <= node.num <= 100
    requires node.MessageNode? ==> |WireTree.Encode(node.fields)| <= 1000
    requires node.Fixed64Node? ==> |node.payload| == 8
    ensures |WireTree.EncodeNode(node)| <= 20 + if node.MessageNode? then |WireTree.Encode(node.fields)| else 0
  {
    hide Varint.Encode;
    EncodeIsShort(WireTree.Key(node.num, WireTree.WireType(node)));
    match node
    case VarintNode(_, v) => EncodeIsShort(v);
    case MessageNode(_, fields) => EncodeIsShort(|WireTree.Encode(fields)|);
    case _ =>
  }

  /** One field, or one small message around some fields. */
  lemma OneNode(node: WireTree.Node, path: seq<uint64>)
    requires 1 <= node.num <= 100 && !node.Fixed64Node?
    requires node.MessageNode? ==> WireTree.WellFormed(node.fields) && |WireTree.Encode(node.fields)| <= 500
    ensures WireTree.WellFormed([node]) && WireTree.Encode([node]) == WireTree.EncodeNode(node)
    ensures |WireTree.Encode([node])| <= 20 + if node.MessageNode? then |WireTree.Encode(node.fields)| else 0
    ensures WireTree.Leaves([node], path) ==
      if node.VarintNode? then [WireTree.V(path + [node.num], node.value)]
      else if node.Fixed32Node? then [WireTree.F(path + [node.num], node.bits)]
      else WireTree.Leaves(node.fields, path + [node.num])
  {
    NodeIsShort(node);
    assert [node][1..] == [];
    hide WireTree.EncodeNode;
    assert WireTree.Encode([node]) == WireTree.EncodeNode(node) + WireTree.Encode([node][1..]);
    assert WireTree.Leaves([node], path) == WireTree.LeavesOf(node, path) + WireTree.Leaves([node][1..], path);
  }

  /** A node in front of others. */
  lemma NodeThen(node: WireTree.Node, more: seq<WireTree.Node>, path: seq<uint64>)
    requires WireTree.WellFormed([node]) && WireTree.WellFormed(more)
    ensures WireTree.WellFormed([node] + more)
    ensures |WireTree.Encode([node] + more)| == |WireTree.Encode([node])| + |WireTree.Encode(more)|
    ensures WireTree.Leaves([node] + more, path) == WireTree.Leaves([node], path) + WireTree.Leaves(more, path)
  {
    hide *;
    assert ([node] + more)[1..] == more && ([node] + more)[0] == node && [node][1..] == [] && [node][0] == node;
    FirstOf([node] + more, path);
    FirstOf([node], path);
    NoneLeft(path);
  }

  lemma FirstOf(fields: seq<WireTree.Node>, path: seq<uint64>)
    requires fields != []
    ensures WireTree.WellFormed(fields) <==> WireTree.WellFormedNode(fields[0]) && WireTree.WellFormed(fields[1..])
    ensures WireTree.Encode(fields) == WireTree.EncodeNode(fields[0]) + WireTree.Encode(fields[1..])
    ensures WireTree.Leaves(fields, path) == WireTree.LeavesOf(fields[0], path) + WireTree.Leaves(fields[1..], path)
  {
    hide WireTree.EncodeNode;
    hide WireTree.LeavesOf;
    hide WireTree.WellFormedNode;
  }

  lemma NoneLeft(path: seq<uint64>)
    ensures WireTree.WellFormed([]) && WireTree.Encode([]) == [] && WireTree.Leaves([], path) == []
  {
  }

  lemma FlatNodesAreRead(bits: uint32, first: uint64, second: uint64)
    ensures var fields, top: seq<uint64> := FlatNodes(bits, first, second), [];
      && WireTree.WellFormed(fields) && |WireTree.Encode(fields)| <= 60
      && WireTree.Leaves(fields, top) == [WireTree.F([1], bits), WireTree.V([2], first), WireTree.V([3], second)]
  {
    hide WireTree.Encode;
    hide WireTree.Leaves;
    hide WireTree.WellFormed;
    var a, b, d := WireTree.Fixed32Node(1, bits), WireTree.VarintNode(2, first), WireTree.VarintNode(3, second);
    var top: seq<uint64> := [];
    OneNode(a, top);
    OneNode(b, top);
    OneNode(d, top);
    NodeThen(b, [d], top);
    NodeThen(a, [b] + [d], top);
    assert [a] + ([b] + [d]) == FlatNodes(bits, first, second);
    assert top + [1] == [1] && top + [2] == [2] && top + [3] == [3];
  }

  function FlatTree(bits: uint32, first: uint64, second: uint64): (fields: seq<WireTree.Node>)
    ensures WireTree.WellFormed(fields) && |WireTree.Encode(fields)| <= 60
  {
    FlatNodesAreRead(bits, first, second);
    FlatNodes(bits, first, second)
  }

  lemma UsageNodesAreRead(bits: uint32, time: uint64)
    ensures var fields, top: seq<uint64> := UsageNodes(bits, time), [];
      && WireTree.WellFormed(fields) && |WireTree.Encode(fields)| <= 100
      && WireTree.Leaves(fields, top) == [WireTree.F([1, 1], bits), WireTree.V([1, 5, 1], time)]
  {
    hide WireTree.Encode;
    hide WireTree.Leaves;
    hide WireTree.WellFormed;
    var a, leaf := WireTree.Fixed32Node(1, bits), WireTree.VarintNode(1, time);
    var b := WireTree.MessageNode(5, [leaf]);
    OneNode(a, [1]);
    OneNode(leaf, [1] + [5]);
    OneNode(b, [1]);
    NodeThen(a, [b], [1]);
    assert [] + [1] == [1];
    OneNode(WireTree.MessageNode(1, [a] + [b]), []);
    assert [a] + [b] == [a, b];
    assert [1] + [1] == [1, 1] && [1] + [5] == [1, 5] && [1, 5] + [1] == [1, 5, 1];
  }

  function UsageTree(bits: uint32, time: uint64): (fields: seq<WireTree.Node>)
    ensures WireTree.WellFormed(fields) && |WireTree.Encode(fields)| <= 100
  {
    UsageNodesAreRead(bits, time);
    UsageNodes(bits, time)
  }

  lemma UnusedNodesAreRead(field: uint64, period: uint64, time: uint64)
    requires 1 <= field <= 100
    ensures var fields, top: seq<uint64> := UnusedNodes(field, period, time), [];
      && WireTree.WellFormed(fields) && |WireTree.Encode(fields)| <= 120
      && WireTree.Leaves(fields, top) == [WireTree.V([1, field, 1], period), WireTree.V([1, 5, 1], time)]
  {
    hide WireTree.Encode;
    hide WireTree.Leaves;
    hide WireTree.WellFormed;
    var first, second := WireTree.VarintNode(1, period), WireTree.VarintNode(1, time);
    var a, b := WireTree.MessageNode(field, [first]), WireTree.MessageNode(5, [second]);
    OneNode(first, [1] + [field]);
    OneNode(second, [1] + [5]);
    OneNode(a, [1]);
    OneNode(b, [1]);
    NodeThen(a, [b], [1]);
    assert [] + [1] == [1];
    OneNode(WireTree.MessageNode(1, [a] + [b]), []);
    assert [a] + [b] == [a, b];
    assert [1] + [field] == [1, field] && [1] + [5] == [1, 5];
    assert [1, field] + [1] == [1, field, 1] && [1, 5] + [1] == [1, 5, 1];
  }

  function UnusedTree(field: uint64, period: uint64, time: uint64): (fields: seq<WireTree.Node>)
    requires 1 <= field <= 100
    ensures WireTree.WellFormed(fields) && |WireTree.Encode(fields)| <= 120
  {
    UnusedNodesAreRead(field, period, time);
    UnusedNodes(field, period, time)
  }

  /** A time the reader takes for a reset: between these two, in unix seconds, and not yet past. */
  predicate Ahead(time: uint64, now: int) {
    1_700_000_000 <= time <= 2_100_000_000 && time * 1_000_000_000 > now
  }

  /** A percentage and a reset time in their places are what the reply is read as. */
  lemma UsageReplyIsRead(bits: uint32, time: uint64, trailer: seq<byte>, now: int, p: Parse)
    requires bits <= 0x42C8_0000 && Ahead(time, now) && |trailer| < TWO32
    requires Parses(Framed(UsageTree(bits, time), trailer), now, p)
    ensures p == Parsed(Billing(FloatOfBits(bits), Some(time)))
  {
    UsageNodesAreRead(bits, time);
    assert UsageTree(bits, time) == UsageNodes(bits, time);
    PercentBits(bits);
    hide UsageTree;
    hide UsageNodes;
    var scan := WireScan.Scan([WireScan.Fixed32Leaf([1, 1], bits, 0)], [WireScan.VarintLeaf([1, 5, 1], time)]);
    ScanOfTwo(WireTree.F([1, 1], bits), WireTree.V([1, 5, 1], time));
    UsageReading(scan, bits, time, now);
    LeavesDecide(UsageTree(bits, time), trailer, now, p, Parsed(Billing(FloatOfBits(bits), Some(time))));
  }

  /**
    No percentage but a reset time means that nothing was used yet, if there is a
    usage period: anything at 1.6.1, or a one or two at 1.8.1. Otherwise the reply
    cannot be read.
   */
  lemma UnusedReplyIsRead(field: uint64, period: uint64, time: uint64, trailer: seq<byte>, now: int, p: Parse)
    requires field in {6, 8} && Ahead(time, now) && |trailer| < TWO32
    requires Parses(Framed(UnusedTree(field, period, time), trailer), now, p)
    ensures p == if field == 6 || period in {1, 2} then Parsed(Billing(Finite(0.0), Some(time))) else ParseFailed
  {
    UnusedNodesAreRead(field, period, time);
    assert UnusedTree(field, period, time) == UnusedNodes(field, period, time);
    hide UnusedTree;
    hide UnusedNodes;
    var scan := WireScan.Scan([], [WireScan.VarintLeaf([1, field, 1], period), WireScan.VarintLeaf([1, 5, 1], time)]);
    ScanOfTwo(WireTree.V([1, field, 1], period), WireTree.V([1, 5, 1], time));
    UnusedReading(scan, field, period, time, now);
    LeavesDecide(UnusedTree(field, period, time), trailer, now, p,
                 if field == 6 || period in {1, 2} then Parsed(Billing(Finite(0.0), Some(time))) else ParseFailed);
  }

  /** Without a time at 1.5.1 the earlier of two counts. */
  lemma EarliestTimeIsRead(bits: uint32, first: uint64, second: uint64, trailer: seq<byte>, now: int, p: Parse)
    requires bits <= 0x42C8_0000 && Ahead(first, now) && Ahead(second, now) && |trailer| < TWO32
    requires Parses(Framed(FlatTree(bits, first, second), trailer), now, p)
    ensures p == Parsed(Billing(FloatOfBits(bits), Some(if first <= second then first else second)))
  {
    FlatNodesAreRead(bits, first, second);
    assert FlatTree(bits, first, second) == FlatNodes(bits, first, second);
    PercentBits(bits);
    hide FlatTree;
    hide FlatNodes;
    var scan := WireScan.Scan([WireScan.Fixed32Leaf([1], bits, 0)], [WireScan.VarintLeaf([2], first), WireScan.VarintLeaf([3], second)]);
    ScanOfThree(WireTree.F([1], bits), WireTree.V([2], first), WireTree.V([3], second));
    FlatReading(scan, bits, first, second, now);
    LeavesDecide(FlatTree(bits, first, second), trailer, now, p,
                 Parsed(Billing(FloatOfBits(bits), Some(if first <= second then first else second))));
  }

  /** Four numbers: at 2, where no percentage is looked for, at 1.1, and twice at 1. */
  function ManyNodes(x: uint32, a: uint32, b: uint32, d: uint32): seq<WireTree.Node> {
    [WireTree.Fixed32Node(2, x), WireTree.MessageNode(1, [WireTree.Fixed32Node(1, a)]),
     WireTree.Fixed32Node(1, b), WireTree.Fixed32Node(1, d)]
  }

  lemma ManyNodesAreRead(x: uint32, a: uint32, b: uint32, d: uint32)
    ensures var fields, top: seq<uint64> := ManyNodes(x, a, b, d), [];
      && WireTree.WellFormed(fields) && |WireTree.Encode(fields)| <= 120
      && WireTree.Leaves(fields, top) == [WireTree.F([2], x), WireTree.F([1, 1], a), WireTree.F([1], b), WireTree.F([1], d)]
  {
    hide WireTree.Encode;
    hide WireTree.Leaves;
    hide WireTree.WellFormed;
    var top: seq<uint64> := [];
    var first, inner := WireTree.Fixed32Node(2, x), WireTree.Fixed32Node(1, a);
    var second, third, last := WireTree.MessageNode(1, [inner]), WireTree.Fixed32Node(1, b), WireTree.Fixed32Node(1, d);
    OneNode(inner, top + [1]);
    OneNode(first, top);
    OneNode(second, top);
    OneNode(third, top);
    OneNode(last, top);
    NodeThen(third, [last], top);
    NodeThen(second, [third] + [last], top);
    NodeThen(first, [second] + ([third] + [last]), top);
    assert [first] + ([second] + ([third] + [last])) == ManyNodes(x, a, b, d);
    assert top + [1] == [1] && top + [2] == [2] && [1] + [1] == [1, 1];
  }

  function ManyTree(x: uint32, a: uint32, b: uint32, d: uint32): (fields: seq<WireTree.Node>)
    ensures WireTree.WellFormed(fields) && |WireTree.Encode(fields)| <= 120
  {
    ManyNodesAreRead(x, a, b, d);
    ManyNodes(x, a, b, d)
  }

  /** Of several percentages the shallowest counts, and of these the first; numbers elsewhere do not. */
  lemma FirstShallowestIsRead(x: uint32, a: uint32, b: uint32, d: uint32, trailer: seq<byte>, now: int, p: Parse)
    requires a <= 0x42C8_0000 && b <= 0x42C8_0000 && d <= 0x42C8_0000 && |trailer| < TWO32
    requires Parses(Framed(ManyTree(x, a, b, d), trailer), now, p)
    ensures p == Parsed(Billing(FloatOfBits(b), None))
  {
    ManyNodesAreRead(x, a, b, d);
    assert ManyTree(x, a, b, d) == ManyNodes(x, a, b, d);
    hide ManyTree;
    hide ManyNodes;
    PercentBits(a);
    PercentBits(b);
    PercentBits(d);
    ScanOfFour(WireTree.F([2], x), WireTree.F([1, 1], a), WireTree.F([1], b), WireTree.F([1], d));
    ManyReading(WireTree.ScanOf(WireTree.Leaves(ManyTree(x, a, b, d), []), 0), x, a, b, d, now);
    LeavesDecide(ManyTree(x, a, b, d), trailer, now, p, Parsed(Billing(FloatOfBits(b), None)));
  }

  lemma ScanOfFour(a: WireTree.Leaf, b: WireTree.Leaf, d: WireTree.Leaf, e: WireTree.Leaf)
    requires |a.path| <= 5 && |b.path| <= 5 && |d.path| <= 5 && |e.path| <= 5 && a.F? && b.F? && d.F? && e.F?
    ensures WireTree.ScanOf([a, b, d, e], 0) ==
      WireScan.Scan([WireScan.Fixed32Leaf(a.path, a.bits, 0), WireScan.Fixed32Leaf(b.path, b.bits, 1),
                     WireScan.Fixed32Leaf(d.path, d.bits, 2), WireScan.Fixed32Leaf(e.path, e.bits, 3)], [])
  {
    hide WireTree.VarintsOf;
    hide WireTree.Fixed32sOf;
    assert [a, b, d, e] == [a] + ([b] + ([d] + [e]));
    WireTree.VarintsOfAppend([a], [b] + ([d] + [e]));
    WireTree.Fixed32sOfAppend([a], [b] + ([d] + [e]), 0);
    WireTree.VarintsOfAppend([b], [d] + [e]);
    WireTree.Fixed32sOfAppend([b], [d] + [e], 1);
    WireTree.VarintsOfAppend([d], [e]);
    WireTree.Fixed32sOfAppend([d], [e], 2);
    WireTree.OneLeaf(a, 0);
    WireTree.OneLeaf(b, 1);
    WireTree.OneLeaf(d, 2);
    WireTree.OneLeaf(e, 3);
  }

  lemma ManyReading(scan: WireScan.Scan, x: uint32, a: uint32, b: uint32, d: uint32, now: int)
    requires scan == WireScan.Scan([WireScan.Fixed32Leaf([2], x, 0), WireScan.Fixed32Leaf([1, 1], a, 1),
                                    WireScan.Fixed32Leaf([1], b, 2), WireScan.Fixed32Leaf([1], d, 3)], [])
    requires forall bits :: bits in {a, b, d} ==> !FloatOfBits(bits).BelowZero() && !FloatOfBits(bits).AboveHundred()
    ensures Reads(scan, now, Parsed(Billing(FloatOfBits(b), None)))
  {
    hide FloatOfBits;
    ThirdIsShallowest(scan.fixed32);
    hide FirstShallowest;
    assert scan.fixed32[2] in scan.fixed32;
    assert FutureTimes([], now) == [];
  }

  lemma ThirdIsShallowest(leaves: seq<WireScan.Fixed32Leaf>)
    requires |leaves| == 4 && leaves[0].path == [2] && leaves[1].path == [1, 1] && leaves[2].path == leaves[3].path == [1]
    requires PercentCandidate(leaves[2])
    ensures FirstShallowest(leaves, 2)
  {
    hide FloatOfBits;
  }

  lemma ScanOfTwo(a: WireTree.Leaf, b: WireTree.Leaf)
    requires |a.path| <= 5 && |b.path| <= 5 && b.V?
    ensures WireTree.ScanOf([a, b], 0) ==
      if a.V? then WireScan.Scan([], [WireScan.VarintLeaf(a.path, a.value), WireScan.VarintLeaf(b.path, b.value)])
      else WireScan.Scan([WireScan.Fixed32Leaf(a.path, a.bits, 0)], [WireScan.VarintLeaf(b.path, b.value)])
  {
    assert [a, b] == [a] + [b];
    WireTree.VarintsOfAppend([a], [b]);
    WireTree.Fixed32sOfAppend([a], [b], 0);
    WireTree.OneLeaf(a, 0);
    WireTree.OneLeaf(b, 0);
    WireTree.OneLeaf(b, 1);
    hide WireTree.VarintsOf;
    hide WireTree.Fixed32sOf;
  }

  lemma ScanOfThree(a: WireTree.Leaf, b: WireTree.Leaf, d: WireTree.Leaf)
    requires |a.path| <= 5 && |b.path| <= 5 && |d.path| <= 5 && a.F? && b.V? && d.V?
    ensures WireTree.ScanOf([a, b, d], 0) ==
      WireScan.Scan([WireScan.Fixed32Leaf(a.path, a.bits, 0)],
                    [WireScan.VarintLeaf(b.path, b.value), WireScan.VarintLeaf(d.path, d.value)])
  {
    assert [a, b, d] == [a] + [b, d];
    WireTree.VarintsOfAppend([a], [b, d]);
    WireTree.Fixed32sOfAppend([a], [b, d], 0);
    assert [b, d] == [b] + [d];
    WireTree.VarintsOfAppend([b], [d]);
    WireTree.Fixed32sOfAppend([b], [d], 1);
    WireTree.OneLeaf(a, 0);
    WireTree.OneLeaf(b, 1);
    WireTree.OneLeaf(d, 1);
    hide WireTree.VarintsOf;
    hide WireTree.Fixed32sOf;
  }

  lemma TwoTimes(a: WireScan.VarintLeaf, b: WireScan.VarintLeaf, now: int)
    ensures FutureTimes([b], now) == if FutureTime(b, now) then [b] else []
    ensures FutureTimes([a, b], now) == (if FutureTime(a, now) then [a] else []) + if FutureTime(b, now) then [b] else []
  {
    assert [a, b][..1] == [a] && [a][..0] == [] && [b][..0] == [];
    assert FutureTimes([a][..0], now) == [];
  }

  lemma OneCandidate(l: WireScan.Fixed32Leaf)
    requires PercentCandidate(l)
    ensures !NoCandidate([l]) && Reports([l], FloatOfBits(l.bits))
  {
    hide FloatOfBits;
    hide PercentCandidate;
    assert l in [l] && FirstShallowest([l], 0);
  }

  /** The last of one or two times, when it alone is in the place of the reset time. */
  lemma LastIsReset(future: seq<WireScan.VarintLeaf>)
    requires 1 <= |future| <= 2 && ResetPath(future[|future| - 1]) && (|future| == 2 ==> !ResetPath(future[0]))
    ensures IsReset(future, future[|future| - 1].value)
  {
    hide ResetPath;
    assert future[|future| - 1] in future;
  }

  lemma UsageReading(scan: WireScan.Scan, bits: uint32, time: uint64, now: int)
    requires scan == WireScan.Scan([WireScan.Fixed32Leaf([1, 1], bits, 0)], [WireScan.VarintLeaf([1, 5, 1], time)])
    requires !FloatOfBits(bits).BelowZero() && !FloatOfBits(bits).AboveHundred() && Ahead(time, now)
    ensures Reads(scan, now, Parsed(Billing(FloatOfBits(bits), Some(time))))
  {
    hide FloatOfBits;
    TwoTimes(scan.varints[0], scan.varints[0], now);
    hide FutureTimes;
    OneCandidate(scan.fixed32[0]);
    LastIsReset([scan.varints[0]]);
    hide IsReset;
    hide Reports;
    hide NoCandidate;
  }

  lemma UnusedReading(scan: WireScan.Scan, field: uint64, period: uint64, time: uint64, now: int)
    requires field in {6, 8} && Ahead(time, now)
    requires scan == WireScan.Scan([], [WireScan.VarintLeaf([1, field, 1], period), WireScan.VarintLeaf([1, 5, 1], time)])
    ensures Reads(scan, now, if field == 6 || period in {1, 2} then Parsed(Billing(Finite(0.0), Some(time))) else ParseFailed)
  {
    hide *;
    var first, second := scan.varints[0], scan.varints[1];
    var future := FutureTimes(scan.varints, now);
    assert scan.varints == [first, second];
    TwoTimes(first, second, now);
    AheadIsFuture(second, now);
    PlacesOfReset(first, second);
    assert future == [second] || future == [first, second];
    LastIsReset(future);
    PeriodOfTwo(scan);
    if HasUsagePeriod(scan) {
      ReadsUnused(scan, time, now);
    } else {
      ReadsNothing(scan, now);
    }
  }

  lemma AheadIsFuture(l: WireScan.VarintLeaf, now: int)
    requires Ahead(l.value, now)
    ensures FutureTime(l, now)
  {
  }

  lemma PlacesOfReset(first: WireScan.VarintLeaf, second: WireScan.VarintLeaf)
    ensures first.path in {[1, 6, 1], [1, 8, 1]} ==> !ResetPath(first)
    ensures second.path == [1, 5, 1] ==> ResetPath(second)
  {
  }

  lemma ReadsUnused(scan: WireScan.Scan, time: uint64, now: int)
    requires scan.fixed32 == [] && FutureTimes(scan.varints, now) != [] && HasUsagePeriod(scan)
    requires IsReset(FutureTimes(scan.varints, now), time)
    ensures Reads(scan, now, Parsed(Billing(Finite(0.0), Some(time))))
  {
    hide IsReset;
    hide FutureTimes;
    hide HasUsagePeriod;
  }

  lemma ReadsNothing(scan: WireScan.Scan, now: int)
    requires scan.fixed32 == [] && !HasUsagePeriod(scan)
    ensures Reads(scan, now, ParseFailed)
  {
    hide HasUsagePeriod;
    hide FutureTimes;
  }

  lemma PeriodOfTwo(scan: WireScan.Scan)
    requires |scan.varints| == 2 && scan.varints[1].path == [1, 5, 1]
    requires scan.varints[0].path in {[1, 6, 1], [1, 8, 1]}
    ensures HasUsagePeriod(scan) <==> scan.varints[0].path == [1, 6, 1] || scan.varints[0].value in {1, 2}
  {
    assert scan.varints[0] in scan.varints;
    assert forall l :: l in scan.varints ==> l == scan.varints[0] || l == scan.varints[1];
  }

  lemma FlatReading(scan: WireScan.Scan, bits: uint32, first: uint64, second: uint64, now: int)
    requires scan == WireScan.Scan([WireScan.Fixed32Leaf([1], bits, 0)],
                                   [WireScan.VarintLeaf([2], first), WireScan.VarintLeaf([3], second)])
    requires !FloatOfBits(bits).BelowZero() && !FloatOfBits(bits).AboveHundred() && Ahead(first, now) && Ahead(second, now)
    ensures Reads(scan, now, Parsed(Billing(FloatOfBits(bits), Some(if first <= second then first else second))))
  {
    hide FloatOfBits;
    TwoTimes(scan.varints[0], scan.varints[1], now);
    hide FutureTimes;
    OneCandidate(scan.fixed32[0]);
    EarlierOfTwo(scan.varints[0], scan.varints[1]);
    assert [scan.varints[0]] + [scan.varints[1]] == [scan.varints[0], scan.varints[1]];
    hide IsReset;
    hide Reports;
    hide NoCandidate;
  }

  lemma EarlierOfTwo(a: WireScan.VarintLeaf, b: WireScan.VarintLeaf)
    requires !ResetPath(a) && !ResetPath(b)
    ensures IsReset([a, b], if a.value <= b.value then a.value else b.value)
  {
    assert a in [a, b] && b in [a, b];
  }

  /** A quiet NaN in field 1 is reported as the used percentage. */
  lemma NaNIsReported(now: int)
    ensures var fields := [WireTree.Fixed32Node(1, 0x7FC0_0000)];
      && WireTree.WellFormed(fields)
      && Reads(WireTree.ScanOf(WireTree.Leaves(fields, []), 0), now, Parsed(Billing(NaN, None)))
  {
    var scan := WireTree.ScanOf(WireTree.Leaves([WireTree.Fixed32Node(1, 0x7FC0_0000)], []), 0);
    NaNScan();
    hide *;
    NaNReading(scan, now);
  }

  lemma NaNScan()
    ensures var fields := [WireTree.Fixed32Node(1, 0x7FC0_0000)];
      && WireTree.WellFormed(fields)
      && WireTree.ScanOf(WireTree.Leaves(fields, []), 0)
         == WireScan.Scan([WireScan.Fixed32Leaf([1], 0x7FC0_0000, 0)], [])
  {
    var node := WireTree.Fixed32Node(1, 0x7FC0_0000);
    var top: seq<uint64> := [];
    assert [node][1..] == [] && top + [node.num] == [1];
    var leaves := WireTree.Leaves([node], top);
    assert WireTree.LeavesOf(node, top) == [WireTree.F([1], 0x7FC0_0000)] && WireTree.Leaves([node][1..], top) == [];
    assert leaves == [WireTree.F([1], 0x7FC0_0000)];
    WireTree.OneLeaf(leaves[0], 0);
  }

  lemma QuietNaN()
    ensures FloatOfBits(0x7FC0_0000) == NaN
  {
  }

  lemma NaNReading(scan: WireScan.Scan, now: int)
    requires scan == WireScan.Scan([WireScan.Fixed32Leaf([1], 0x7FC0_0000, 0)], [])
    ensures Reads(scan, now, Parsed(Billing(NaN, None)))
  {
    QuietNaN();
    hide FloatOfBits;
    assert scan.fixed32[0] in scan.fixed32 && FirstShallowest(scan.fixed32, 0);
  }

  /** A body of trailer frames alone holds no payload, yet it is scanned, framing bytes and all, as a message. */
  lemma TrailersAloneAreScanned(frames: seq<Frame>)
    requires Encodable(frames) && frames != []
    requires forall f :: f in frames ==> f.flags == 0x80
    ensures ScannedPayloads(EncodeFrames(frames)) == [EncodeFrames(frames)]
  {
    hide EncodeFrames;
    FrameRoundTrip(frames, []);
    assert EncodeFrames(frames) + [] == EncodeFrames(frames);
    NoDataPayloads(frames);
    FirstByte(frames);
  }

  /**
    Exactly when a body without data payloads is scanned itself, be it made of
    trailer frames or cut off inside a frame: its first byte, the flag byte of its
    first frame, has to look like a field key, with a field number above zero and a
    wire type that the scanner knows.
   */
  lemma TrailersAloneAreScannedIff(frames: seq<Frame>, tail: seq<byte>)
    requires Encodable(frames) && frames != [] && Stuck(tail)
    requires |tail| >= 5 || forall f :: f in frames ==> f.flags >= 0x80
    ensures var data, first := EncodeFrames(frames) + tail, frames[0].flags;
      && (ScannedPayloads(data) != [] <==> first >= 8 && first % 8 in [0, 1, 2, 5])
      && (ScannedPayloads(data) != [] ==> ScannedPayloads(data) == [data])
  {
    var data := EncodeFrames(frames) + tail;
    FrameRoundTrip(frames, tail);
    if |tail| < 5 {
      NoDataPayloads(frames);
    }
    FirstByte(frames);
    assert frames[0] in frames && data[0] == frames[0].flags;
    assert DataPayloads(data) == [] by { hide *; HeaderIsFive(); }
    hide EncodeFrames;
    hide DataPayloads;
  }

  lemma HeaderIsFive()
    ensures HEADER == 5
  {
  }

  lemma FirstByte(frames: seq<Frame>)
    requires Encodable(frames) && frames != []
    ensures EncodeFrames(frames) != [] && EncodeFrames(frames)[0] == frames[0].flags
  {
  }

  lemma {:induction false} NoDataPayloads(frames: seq<Frame>)
    requires forall f :: f in frames ==> f.IsTrailer()
    ensures Payloads(frames, false) == []
  {
    if frames != [] {
      assert frames[0] in frames;
      NoDataPayloads(frames[1..]);
    }
  }
}
