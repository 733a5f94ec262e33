/** What the scanner guarantees on arbitrary bytes, at every nesting level. */
module WireScanLaws {
  import opened Prelude
  import opened WireScan
  import Varint

  /**
    Every leaf is paid for by input bytes of its own: two for a varint, five for
    a fixed32, however the fields nest and wherever the walk resynchronises.
   */
  lemma {:induction false} LeavesFitTheInput(s: seq<byte>, depth: nat, path: seq<uint64>, order: nat)
    requires ScanBytes(s, depth, path, order).Done?
    ensures var scan := ScanBytes(s, depth, path, order).scan;
      2 * |scan.varints| + 5 * |scan.fixed32| <= |s|
    decreases |s|
  {
    hide Varint.Read;
    if s != [] {
      var f := FieldAt(s);
      if f.Submessage? && depth < MAX_DEPTH {
        LeavesFitTheInput(f.body, depth + 1, path + [f.num], order);
      }
      LeavesFitTheInput(s[Width(f)..], depth, path, Contribution(f, depth, path, order).next);
    }
  }

  /** Fixed32 leaves are numbered consecutively from the starting order, across nested messages. */
  lemma {:induction false} OrdersAreConsecutive(s: seq<byte>, depth: nat, path: seq<uint64>, order: nat)
    requires ScanBytes(s, depth, path, order).Done?
    ensures var Done(scan, next) := ScanBytes(s, depth, path, order);
      && next == order + |scan.fixed32|
      && forall i :: 0 <= i < |scan.fixed32| ==> scan.fixed32[i].order == order + i
    decreases |s|
  {
    hide FieldAt;
    if s != [] {
      var f := FieldAt(s);
      if f.Submessage? && depth < MAX_DEPTH {
        assert |f.body| < |s|;
        OrdersAreConsecutive(f.body, depth + 1, path + [f.num], order);
      }
      OrdersAreConsecutive(s[Width(f)..], depth, path, Contribution(f, depth, path, order).next);
    }
  }

  /** p extends path by between one and `room` field numbers. */
  predicate Extends(p: seq<uint64>, path: seq<uint64>, room: nat) {
    path < p && |p| <= |path| + room
  }

  /** Leaf paths extend the path of the message scanned and have at most five field numbers from the top. */
  lemma {:induction false} PathsStayShallow(s: seq<byte>, depth: nat, path: seq<uint64>, order: nat)
    requires depth <= 4
    requires ScanBytes(s, depth, path, order).Done?
    ensures var scan := ScanBytes(s, depth, path, order).scan;
      && (forall l :: l in scan.varints ==> Extends(l.path, path, 5 - depth))
      && (forall l :: l in scan.fixed32 ==> Extends(l.path, path, 5 - depth))
    decreases |s|
  {
    hide FieldAt;
    if s != [] {
      var f := FieldAt(s);
      if f.Submessage? && depth < MAX_DEPTH {
        assert |f.body| < |s|;
        PathsStayShallow(f.body, depth + 1, path + [f.num], order);
      }
      PathsStayShallow(s[Width(f)..], depth, path, Contribution(f, depth, path, order).next);
    }
  }

  /** The walk over s begins a field at offset i, having consumed whole fields and single junk bytes before it. */
  predicate Reaches(s: seq<byte>, i: nat)
    decreases |s|
  {
    i == 0
    || (s != [] && !FieldAt(s).Overlong? && Width(FieldAt(s)) <= i && Reaches(s[Width(FieldAt(s))..], i - Width(FieldAt(s))))
  }

  /**
    Somewhere the walk reaches, here or in a message it descends into, a
    length-delimited field declares a length of 2^63 or more.
   */
  ghost predicate DeclaresOverlong(s: seq<byte>, depth: nat)
    decreases |s|
  {
    exists i :: 0 <= i < |s| && Reaches(s, i) && OverlongField(s, i, depth)
  }

  ghost predicate OverlongField(s: seq<byte>, i: nat, depth: nat)
    requires i < |s|
    decreases |s|, 0
  {
    var f := FieldAt(s[i..]);
    f.Overlong? || (f.Submessage? && depth < 4 && DeclaresOverlong(f.body, depth + 1))
  }

  /**
    The scanner is not total. It panics on exactly the inputs whose walk meets
    a declared length of 2^63 or more, because the length is compared only after
    its conversion to a signed int.
   */
  lemma {:induction false} PanicsIffOverlong(s: seq<byte>, depth: nat, path: seq<uint64>, order: nat)
    ensures ScanBytes(s, depth, path, order).Panic? <==> DeclaresOverlong(s, depth)
    decreases |s|
  {
    hide FieldAt;
    if s != [] {
      var f := FieldAt(s);
      assert s[0..] == s && Reaches(s, 0);
      if f.Submessage? && depth < MAX_DEPTH {
        PanicsIffOverlong(f.body, depth + 1, path + [f.num], order);
      }
      assert Contribution(f, depth, path, order).Panic? <==> OverlongField(s, 0, depth);
      if !f.Overlong? {
        OverlongSplits(s, depth);
        var found := Contribution(f, depth, path, order);
        if found.Done? {
          PanicsIffOverlong(s[Width(f)..], depth, path, found.next);
        }
      }
    }
  }

  /** The walk starts at offset 0 and goes on behind the first field. */
  lemma WalkStarts(s: seq<byte>, i: nat)
    requires s != [] && !FieldAt(s).Overlong?
    ensures Reaches(s, 0)
    ensures var w := Width(FieldAt(s));
      Reaches(s, i) && i > 0 ==> w <= i && Reaches(s[w..], i - w)
  {
    hide FieldAt;
  }

  lemma WalkGoesOn(s: seq<byte>, i: nat)
    requires s != [] && !FieldAt(s).Overlong?
    ensures var w := Width(FieldAt(s));
      Reaches(s[w..], i) ==> Reaches(s, w + i)
  {
    hide FieldAt;
  }

  lemma SameFieldInRest(s: seq<byte>, w: nat, i: nat, depth: nat)
    requires w + i < |s|
    ensures OverlongField(s, w + i, depth) <==> OverlongField(s[w..], i, depth)
  {
    hide FieldAt;
    hide DeclaresOverlong;
    assert s[w..][i..] == s[w + i..];
  }

  lemma FoundOverlong(s: seq<byte>, i: nat, depth: nat)
    requires i < |s| && Reaches(s, i) && OverlongField(s, i, depth)
    ensures DeclaresOverlong(s, depth)
  {
    hide FieldAt;
    hide Reaches;
    hide OverlongField;
  }

  /** An over-long declaration is in the first field of s or in what follows it. */
  lemma OverlongSplits(s: seq<byte>, depth: nat)
    requires s != [] && !FieldAt(s).Overlong?
    ensures DeclaresOverlong(s, depth) <==>
      OverlongField(s, 0, depth) || DeclaresOverlong(s[Width(FieldAt(s))..], depth)
  {
    hide FieldAt;
    hide Reaches;
    hide OverlongField;
    var w := Width(FieldAt(s));
    var t := s[w..];
    WalkStarts(s, 0);
    if DeclaresOverlong(s, depth) {
      var i :| 0 <= i < |s| && Reaches(s, i) && OverlongField(s, i, depth);
      if i > 0 {
        WalkStarts(s, i);
        SameFieldInRest(s, w, i - w, depth);
        FoundOverlong(t, i - w, depth);
      }
    }
    if DeclaresOverlong(t, depth) {
      var i :| 0 <= i < |t| && Reaches(t, i) && OverlongField(t, i, depth);
      WalkGoesOn(s, i);
      SameFieldInRest(s, w, i, depth);
      FoundOverlong(s, w + i, depth);
    }
    if OverlongField(s, 0, depth) {
      FoundOverlong(s, 0, depth);
    }
  }

  /** No offset of s holds a varint of 2^63 or more: something a caller can check without scanning. */
  predicate SmallVarints(s: seq<byte>) {
    forall i :: 0 <= i < |s| ==> (Varint.Read(s[i..]).Some? ==> Varint.Read(s[i..]).value.0 < TWO63)
  }

  /** On such bytes the scanner never panics, at any depth. */
  lemma {:induction false} SmallVarintsScan(s: seq<byte>, depth: nat, path: seq<uint64>, order: nat)
    requires SmallVarints(s)
    ensures ScanBytes(s, depth, path, order).Done?
    decreases |s|
  {
    hide FieldAt;
    if s != [] {
      var f := FieldAt(s);
      SmallField(s);
      if f.Submessage? && depth < MAX_DEPTH {
        SmallVarintsScan(f.body, depth + 1, path + [f.num], order);
      }
      SmallInWindow(s, Width(f), |s|);
      assert s[Width(f)..|s|] == s[Width(f)..];
      SmallVarintsScan(s[Width(f)..], depth, path, Contribution(f, depth, path, order).next);
    }
  }

  lemma SmallField(s: seq<byte>)
    requires s != [] && SmallVarints(s)
    ensures !FieldAt(s).Overlong?
    ensures FieldAt(s).Submessage? ==> SmallVarints(FieldAt(s).body)
  {
    hide Varint.Read;
    if Varint.Read(s).Some? {
      var k := Varint.Read(s).value.1;
      var rest := s[k..];
      if rest != [] && Varint.Read(rest).Some? {
        var (l, n) := Varint.Read(rest).value;
        assert l < TWO63;
        if l <= |rest| - n {
          assert rest[n..n + l] == s[k + n..k + n + l];
          SmallInWindow(s, k + n, k + n + l);
        }
      }
    }
  }

  lemma SmallInWindow(s: seq<byte>, lo: nat, hi: nat)
    requires SmallVarints(s) && lo <= hi <= |s|
    ensures SmallVarints(s[lo..hi])
  {
    hide Varint.Read;
    var t := s[lo..hi];
    forall i | 0 <= i < |t| && Varint.Read(t[i..]).Some?
      ensures Varint.Read(t[i..]).value.0 < TWO63
    {
      assert t[i..] + s[hi..] == s[lo + i..];
      Varint.ReadIgnoresSuffix(t[i..], s[hi..]);
    }
  }

  /** Field 1, length-delimited, declared length 2^64 - 1: the conversion yields -1 and the slice panics. */
  lemma OverlongPanics()
    ensures ScanBytes([0x0A, 0xFF, 0xFF, 0xFF, 0xFF, 0xFF, 0xFF, 0xFF, 0xFF, 0xFF, 0x01], 0, [], 0) == Panic
  {
    EncodeOfMaxWord();
    var s := [0x0A] + Varint.Encode(TWO64 - 1);
    assert s == [0x0A, 0xFF, 0xFF, 0xFF, 0xFF, 0xFF, 0xFF, 0xFF, 0xFF, 0xFF, 0x01];
    LengthPanics(s, 0x0A, TWO64 - 1);
  }

  lemma LengthPanics(s: seq<byte>, key: uint64, length: uint64)
    requires s == Varint.Encode(key) + Varint.Encode(length)
    requires key > 0 && key % 8 == 2 && length >= TWO63
    ensures ScanBytes(s, 0, [], 0) == Panic
  {
    hide Varint.Read;
    hide Varint.Encode;
    Varint.ReadInvertsEncode(key, Varint.Encode(length));
    Varint.ReadInvertsEncode(length, []);
    assert s[|Varint.Encode(key)|..] == Varint.Encode(length) + [];
    assert FieldAt(s) == Overlong;
  }

  lemma EncodeOfMaxWord()
    ensures Varint.Encode(TWO64 - 1) == [0xFF, 0xFF, 0xFF, 0xFF, 0xFF, 0xFF, 0xFF, 0xFF, 0xFF, 0x01]
  {
    assert Varint.Encode(0xFF) == [0xFF, 0x01];
    assert Varint.Encode(0x7FFF) == [0xFF] + Varint.Encode(0xFF);
    assert Varint.Encode(0x3F_FFFF) == [0xFF] + Varint.Encode(0x7FFF);
    assert Varint.Encode(0x1FFF_FFFF) == [0xFF] + Varint.Encode(0x3F_FFFF);
    assert Varint.Encode(0xF_FFFF_FFFF) == [0xFF] + Varint.Encode(0x1FFF_FFFF);
    assert Varint.Encode(0x7FF_FFFF_FFFF) == [0xFF] + Varint.Encode(0xF_FFFF_FFFF);
    assert Varint.Encode(0x3_FFFF_FFFF_FFFF) == [0xFF] + Varint.Encode(0x7FF_FFFF_FFFF);
    assert Varint.Encode(0x1FF_FFFF_FFFF_FFFF) == [0xFF] + Varint.Encode(0x3_FFFF_FFFF_FFFF);
  }
}
