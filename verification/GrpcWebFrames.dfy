/**
  gRPC-web framing as server/internal/api/grok_client.go walks it: one flag byte
  (most significant bit set on a trailer frame), a big-endian 32-bit length, the
  payload ("Length-Prefixed-Message" of gRPC over HTTP2; gRPC-Web trailer flag).
 */
module GrpcWebFrames {
  import opened Prelude

  const HEADER: nat := 5

  datatype Frame = Frame(flags: byte, payload: seq<byte>) {
    predicate IsTrailer() {
      flags >= 0x80
    }
  }

  function BigEndian32(b: seq<byte>): (n: uint32)
    requires |b| == 4
  {
    var b0: int, b1: int, b2: int, b3: int := b[0], b[1], b[2], b[3];
    ((b0 * 0x100 + b1) * 0x100 + b2) * 0x100 + b3
  }

  function Length32(n: uint32): (s: seq<byte>)
    ensures |s| == 4
  {
    var high := n / 0x100;
    [high / 0x100 / 0x100, high / 0x100 % 0x100, high % 0x100, n % 0x100]
  }

  lemma LengthRoundTrip(n: uint32)
    ensures BigEndian32(Length32(n)) == n
  {
  }

  lemma LengthRoundTripBack(b: seq<byte>)
    requires |b| == 4
    ensures Length32(BigEndian32(b)) == b
  {
    var b0: int, b1: int, b2: int, b3: int := b[0], b[1], b[2], b[3];
    assert BigEndian32(b) / 0x100 == (b0 * 0x100 + b1) * 0x100 + b2;
    assert BigEndian32(b) / 0x100 / 0x100 == b0 * 0x100 + b1;
  }

  function EncodeFrame(f: Frame): seq<byte>
    requires |f.payload| < TWO32
  {
    [f.flags] + Length32(|f.payload|) + f.payload
  }

  /** The length is four bytes, most significant first. */
  lemma FramesByExample(flags: byte, payload: seq<byte>)
    requires |payload| < 65536
    ensures EncodeFrame(Frame(flags, payload)) == [flags, 0, 0, |payload| / 256, |payload| % 256] + payload
  {
  }

  predicate Encodable(frames: seq<Frame>) {
    forall f :: f in frames ==> |f.payload| < TWO32
  }

  function EncodeFrames(frames: seq<Frame>): seq<byte>
    requires Encodable(frames)
  {
    if frames == [] then [] else EncodeFrame(frames[0]) + EncodeFrames(frames[1..])
  }

  /** No whole frame fits at the front of these bytes: the header or the payload is cut short. */
  predicate Stuck(b: seq<byte>) {
    |b| < HEADER || HEADER + BigEndian32(b[1..5]) > |b|
  }

  /** Where the first frame ends. */
  function End(b: seq<byte>): (n: nat)
    requires !Stuck(b)
    ensures HEADER <= n <= |b|
  {
    HEADER + BigEndian32(b[1..5])
  }

  function First(b: seq<byte>): (f: Frame)
    requires !Stuck(b)
    ensures |f.payload| < TWO32
  {
    Frame(b[0], b[HEADER..End(b)])
  }

  /** The whole frames at the front of b, and the bytes after the last of them. */
  function Framing(b: seq<byte>): (r: (seq<Frame>, seq<byte>))
    ensures Encodable(r.0) && Stuck(r.1)
    decreases |b|
  {
    if Stuck(b) then ([], b)
    else
      var (frames, rest) := Framing(b[End(b)..]);
      ([First(b)] + frames, rest)
  }

  lemma FirstOfEncode(f: Frame, more: seq<byte>)
    requires |f.payload| < TWO32
    ensures var b := EncodeFrame(f) + more;
      !Stuck(b) && First(b) == f && b[End(b)..] == more
  {
    hide BigEndian32;
    hide Length32;
    var b := EncodeFrame(f) + more;
    assert b[1..5] == Length32(|f.payload|);
    LengthRoundTrip(|f.payload|);
  }

  lemma EncodeOfFirst(b: seq<byte>)
    requires !Stuck(b)
    ensures EncodeFrame(First(b)) == b[..End(b)]
  {
    hide BigEndian32;
    hide Length32;
    LengthRoundTripBack(b[1..5]);
    assert b[..End(b)] == [b[0]] + b[1..5] + b[HEADER..End(b)];
  }

  /** Framing inverts the encoding of any list of frames, up to a tail that holds no whole frame. */
  lemma {:induction false} FramingOfEncode(frames: seq<Frame>, tail: seq<byte>)
    requires Encodable(frames) && Stuck(tail)
    ensures Framing(EncodeFrames(frames) + tail) == (frames, tail)
  {
    hide Stuck;
    hide End;
    hide First;
    hide EncodeFrame;
    if frames == [] {
      assert EncodeFrames(frames) + tail == tail;
    } else {
      var f, more := frames[0], EncodeFrames(frames[1..]) + tail;
      FirstOfEncode(f, more);
      assert EncodeFrames(frames) + tail == EncodeFrame(f) + more;
      FramingOfEncode(frames[1..], tail);
      assert frames == [f] + frames[1..];
    }
  }

  /** Nothing is lost: the frames and the leftover bytes are the input. */
  lemma {:induction false} EncodeOfFraming(b: seq<byte>)
    ensures EncodeFrames(Framing(b).0) + Framing(b).1 == b
    decreases |b|
  {
    hide Stuck;
    hide End;
    hide First;
    hide EncodeFrame;
    if Stuck(b) {
      assert [] + b == b;
    } else {
      var (frames, rest) := Framing(b[End(b)..]);
      EncodeOfFraming(b[End(b)..]);
      EncodeOfFirst(b);
      assert ([First(b)] + frames)[1..] == frames;
      assert b == b[..End(b)] + (EncodeFrames(frames) + rest);
    }
  }

  /** The payloads of the data frames, or of the trailer frames, in order. */
  function Payloads(frames: seq<Frame>, trailers: bool): seq<seq<byte>> {
    if frames == [] then []
    else if frames[0].IsTrailer() == trailers then [frames[0].payload] + Payloads(frames[1..], trailers)
    else Payloads(frames[1..], trailers)
  }

  /** The payloads the data walker returns: all of them, or none when a frame is cut short. */
  function DataPayloads(data: seq<byte>): seq<seq<byte>> {
    if |Framing(data).1| < HEADER then Payloads(Framing(data).0, false) else []
  }

  /** The payloads of the trailer frames before any frame that is cut short. */
  function TrailerTexts(data: seq<byte>): seq<seq<byte>> {
    Payloads(Framing(data).0, true)
  }

  /**
    The data frame walker, all or nothing: a tail that has a header but not its
    payload discards the frames before it; a tail shorter than a header does not.
   */
  method DataFrames(data: seq<byte>) returns (payloads: seq<seq<byte>>)
    ensures payloads == DataPayloads(data)
  {
    hide BigEndian32;
    payloads := [];
    var b := data;
    while |b| >= HEADER
      invariant Framing(data).1 == Framing(b).1
      invariant Payloads(Framing(data).0, false) == payloads + Payloads(Framing(b).0, false)
      decreases |b|
    {
      var flags, length := b[0], BigEndian32(b[1..5]);
      if HEADER + length > |b| {
        return [];
      }
      if flags < 0x80 {
        payloads := payloads + [b[HEADER..HEADER + length]];
      }
      b := b[HEADER + length..];
    }
  }

  /** The header lines of a trailer frame, as the text parser of the source reads them. */
  type Fields = map<string, string>

  function MergeFields(texts: seq<seq<byte>>, parse: seq<byte> -> Fields): Fields {
    if texts == [] then map[] else MergeFields(texts[..|texts| - 1], parse) + parse(texts[|texts| - 1])
  }

  /** Taking one frame off the front of b. */
  lemma NextFrame(b: seq<byte>, trailers: bool)
    requires !Stuck(b)
    ensures Framing(b).1 == Framing(b[End(b)..]).1
    ensures Payloads(Framing(b).0, trailers)
         == (if First(b).IsTrailer() == trailers then [First(b).payload] else []) + Payloads(Framing(b[End(b)..]).0, trailers)
  {
    hide BigEndian32;
  }

  lemma NoFrame(b: seq<byte>, trailers: bool)
    requires Stuck(b)
    ensures Framing(b) == ([], b) && Payloads(Framing(b).0, trailers) == []
  {
  }

  lemma MergeNone(parse: seq<byte> -> Fields)
    ensures MergeFields([], parse) == map[]
  {
  }

  lemma MergeOneMore(texts: seq<seq<byte>>, text: seq<byte>, parse: seq<byte> -> Fields)
    ensures MergeFields(texts + [text], parse) == MergeFields(texts, parse) + parse(text)
  {
    assert (texts + [text])[..|texts|] == texts;
  }

  /** The trailer walker keeps what the frames before a truncated one said; later lines win. */
  method TrailerFields(data: seq<byte>, parse: seq<byte> -> Fields) returns (fields: Fields)
    ensures fields == MergeFields(TrailerTexts(data), parse)
  {
    hide BigEndian32;
    hide MergeFields;
    hide Framing;
    hide Payloads;
    fields := map[];
    var b := data;
    ghost var texts := [];
    MergeNone(parse);
    while |b| >= HEADER
      invariant fields == MergeFields(texts, parse)
      invariant Payloads(Framing(data).0, true) == texts + Payloads(Framing(b).0, true)
      decreases |b|
    {
      var flags, length := b[0], BigEndian32(b[1..5]);
      if HEADER + length > |b| {
        break;
      }
      NextFrame(b, true);
      if flags >= 0x80 {
        var text := b[HEADER..HEADER + length];
        MergeOneMore(texts, text, parse);
        fields := fields + parse(text);
        texts := texts + [text];
      }
      b := b[HEADER + length..];
    }
    NoFrame(b, true);
    assert texts + [] == texts;
  }

  /**
    Encoded frames with a tail too short for a header come back as exactly the
    data payloads, in order; a tail cut inside a frame loses every data payload
    yet keeps every trailer.
   */
  lemma FrameRoundTrip(frames: seq<Frame>, tail: seq<byte>)
    requires Encodable(frames) && Stuck(tail)
    ensures DataPayloads(EncodeFrames(frames) + tail) == if |tail| < HEADER then Payloads(frames, false) else []
    ensures TrailerTexts(EncodeFrames(frames) + tail) == Payloads(frames, true)
  {
    FramingOfEncode(frames, tail);
  }

  /** What is picked out of some frames is picked out of each part: the payloads of the frames of that kind, in order. */
  lemma {:induction false} PayloadsAppend(a: seq<Frame>, b: seq<Frame>, trailers: bool)
    ensures Payloads(a + b, trailers) == Payloads(a, trailers) + Payloads(b, trailers)
  {
    if a == [] {
      assert a + b == b;
    } else {
      assert (a + b)[1..] == a[1..] + b;
      PayloadsAppend(a[1..], b, trailers);
    }
  }

  lemma PayloadsOfOne(f: Frame)
    ensures Payloads([f], false) == if f.flags < 0x80 then [f.payload] else []
    ensures Payloads([f], true) == if f.flags < 0x80 then [] else [f.payload]
  {
    assert [f][1..] == [];
  }

  /** Of the trailer frames that name a field, the last one gives its value. */
  lemma {:induction false} LastTrailerWins(texts: seq<seq<byte>>, parse: seq<byte> -> Fields, key: string)
    ensures key in MergeFields(texts, parse) <==> exists i :: 0 <= i < |texts| && key in parse(texts[i])
    ensures forall i :: 0 <= i < |texts| && key in parse(texts[i]) && (forall j :: i < j < |texts| ==> key !in parse(texts[j])) ==>
      MergeFields(texts, parse)[key] == parse(texts[i])[key]
  {
    if texts != [] {
      var front := texts[..|texts| - 1];
      LastTrailerWins(front, parse, key);
      assert forall i :: 0 <= i < |front| ==> front[i] == texts[i];
    }
  }
}
