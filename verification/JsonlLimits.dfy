/** The limit on unfinished lines: what a caller can check beforehand, and what happens beyond it. */
module JsonlLimits {
  import opened LineSplit
  import opened JsonlIngest
  import opened JsonlLaws

  // Within the limit.

  /** No stretch without a newline is longer than a partial line may be. */
  predicate ShortStretches(content: string) {
    forall i, j :: 0 <= i <= j <= |content| && '\n' !in content[i..j] ==> j - i <= 524288
  }

  lemma ShortPrefix(a: string, b: string)
    requires a <= b && ShortStretches(b)
    ensures ShortStretches(a)
  {
    forall i, j | 0 <= i <= j <= |a| && '\n' !in a[i..j]
      ensures j - i <= 524288
    {
      assert a[i..j] == b[i..j];
    }
  }

  /** What follows the last newline of a prefix is a stretch without newline. */
  lemma TailIsShort(content: string, m: nat)
    requires m <= |content| && ShortStretches(content)
    ensures |Tail(content[..m])| <= MAX_PARTIAL_BYTES
  {
    SplitCompleteLinesSplits(content[..m]);
    hide Joined;
    hide Lines;
    hide Tail;
    var tail := Tail(content[..m]);
    assert content[m - |tail|..m] == tail;
  }

  /** The unfinished line after the next chunk is such a tail again. */
  lemma UnfinishedIsShort(content: string, offset: nat, partial: string)
    requires offset <= |content| && ShortStretches(content) && partial == Tail(content[..offset])
    ensures |Tail(partial + Chunk(content, offset))| <= MAX_PARTIAL_BYTES
  {
    hide ShortStretches;
    hide Tail;
    hide Lines;
    ChunkIsNext(content, offset);
    hide Chunk;
    TailThenMore(content[..offset], Chunk(content, offset));
    TailIsShort(content, offset + |Chunk(content, offset)|);
  }

  lemma ScanFits(s: Sys, path: string, growth: string, fault: Fault)
    requires Tailed(s, path) && path in s.files && ShortStretches(s.Content(path) + growth)
    ensures Fits(s, Scan(path, growth, fault))
  {
    TailedIsCanonical(s, path);
    hide Splits;
    hide Tail;
    hide Lines;
    hide ShortStretches;
    hide Chunk;
    var content, offset := s.Content(path) + growth, s.st.CursorOf(path).offset;
    assert content[..offset] == s.Consumed(path);
    UnfinishedIsShort(content, offset, s.st.CursorOf(path).partial);
  }

  lemma StepGrows(s: Sys, op: Op, parse: Parser, path: string)
    ensures s.Content(path) <= Step(s, op, parse).Content(path)
  {
    hide Scanned;
    hide NewLines;
    hide Persists;
  }

  /** The limit can be checked on the files alone, as they are in the end: whatever scans were made, they fit. */
  lemma {:induction false} ShortStretchesAlwaysFit(ops: seq<Op>, parse: Parser)
    requires forall path :: ShortStretches(Run(ops, parse).Content(path))
    ensures AlwaysFits(ops, parse)
  {
    if ops != [] {
      var front, op := ops[..|ops| - 1], ops[|ops| - 1];
      var s := Run(front, parse);
      forall path
        ensures ShortStretches(s.Content(path))
      {
        StepGrows(s, op, parse, path);
        ShortPrefix(s.Content(path), Run(ops, parse).Content(path));
      }
      ShortStretchesAlwaysFit(front, parse);
      RunIsGood(front, parse);
      if op.Scan? && op.path in s.files {
        assert Run(ops, parse) == Step(s, op, parse);
        hide Run;
        GoodTails(s, op.path, parse);
        assert Step(s, op, parse).Content(op.path) == s.Content(op.path) + op.growth by {
          hide Scanned;
          hide NewLines;
          hide Persists;
        }
        assert ShortStretches(s.Content(op.path) + op.growth);
        ScanFits(s, op.path, op.growth, op.fault);
        FittingFits(s, op, parse);
      }
    }
  }

  // Beyond it.

  /** One byte more than a partial line may have, and no newline. */
  function LongLine(): (s: string)
    ensures |s| == 524289 && '\n' !in s
  {
    seq(524289, _ => 'x')
  }

  /** Scanning on in a file without newline. */
  lemma ScanWithoutNewline(s: Sys, path: string, parse: Parser)
    requires path in s.files && '\n' !in s.Content(path)
    requires var c := s.st.CursorOf(path);
      c.offset < |s.Content(path)| && c.offset <= MAX_PARTIAL_BYTES && c.partial == s.Content(path)[..c.offset]
    ensures var t, read := Step(s, Scan(path, "", NoFault), parse),
                           s.st.CursorOf(path).offset + |Chunk(s.Content(path), s.st.CursorOf(path).offset)|;
      && t.files == s.files && read <= |s.Content(path)|
      && t.st.CursorOf(path) == Cursor(read, Kept(s.Content(path)[..read]))
      && t.EmittedFrom(path) == s.EmittedFrom(path)
  {
    var content, c := s.Content(path), s.st.CursorOf(path);
    var data := Chunk(content, c.offset);
    assert content + "" == content && s.files[path := content] == s.files;
    ChunkIsNext(content, c.offset);
    var seen := content[..c.offset + |data|];
    assert c.partial + data == seen;
    NoNewlineNoLines(seen);
    assert SplitCompleteLines(seen) == ([], seen);
    hide SplitCompleteLines;
    assert NewLines(s, path, content) == [];
    assert Ingested(s.st.rows, [], path, parse) == s.st.rows;
  }

  /** The long line is the file, this much of it is read, and no line has been handed on. */
  predicate ReadUpTo(s: Sys, path: string, read: nat, partial: string) {
    && path in s.files && s.Content(path) == LongLine()
    && s.st.CursorOf(path) == Cursor(read, partial) && s.EmittedFrom(path) == []
  }

  lemma LongLineScanned(s: Sys, path: string, parse: Parser, read: nat)
    requires read <= MAX_PARTIAL_BYTES && ReadUpTo(s, path, read, LongLine()[..read])
    ensures var next := if read + MAX_READ_BYTES <= |LongLine()| then read + MAX_READ_BYTES else |LongLine()|;
      ReadUpTo(Step(s, Scan(path, "", NoFault), parse), path, next, Kept(LongLine()[..next]))
  {
    hide LongLine;
    hide Step;
    ScanWithoutNewline(s, path, parse);
  }

  /**
    A line of 512 KiB and one byte, appended and then read in three scans: the cursor
    is at the end of the file, nothing was handed on, and nothing is kept.
   */
  lemma {:induction false} LongLineIsLost(path: string, parse: Parser)
    ensures var scan := Scan(path, "", NoFault);
      var s := Run([Append(path, LongLine()), scan, scan, scan], parse);
      ReadUpTo(s, path, |LongLine()|, "") && !Tailed(s, path)
  {
    hide LongLine;
    hide ReadUpTo;
    hide Tailed;
    hide Step;
    var scan := Scan(path, "", NoFault);
    var ops := [Append(path, LongLine()), scan, scan, scan];
    LongLineAppended(path, parse);
    RunUnrolled(ops, parse);
    hide Run;
    LongLineScannedThrice(Run(ops[..1], parse), path, parse);
    LongLineDropped(Run(ops, parse), path);
  }

  lemma LongLineScannedThrice(s: Sys, path: string, parse: Parser)
    requires ReadUpTo(s, path, 0, LongLine()[..0])
    ensures var scan := Scan(path, "", NoFault);
      ReadUpTo(Step(Step(Step(s, scan, parse), scan, parse), scan, parse), path, |LongLine()|, Kept(LongLine()))
  {
    hide LongLine;
    hide Step;
    hide ReadUpTo;
    hide Kept;
    var scan := Scan(path, "", NoFault);
    LongLineScanned(s, path, parse, 0);
    FullyKept(LongLine()[..MAX_READ_BYTES]);
    LongLineScanned(Step(s, scan, parse), path, parse, MAX_READ_BYTES);
    FullyKept(LongLine()[..MAX_PARTIAL_BYTES]);
    LongLineScanned(Step(Step(s, scan, parse), scan, parse), path, parse, MAX_PARTIAL_BYTES);
    assert LongLine()[..|LongLine()|] == LongLine();
  }

  lemma LongLineAppended(path: string, parse: Parser)
    ensures ReadUpTo(Step(Sys(map[], Store(map[], []), map[]), Append(path, LongLine()), parse), path, 0, LongLine()[..0])
  {
    hide LongLine;
    assert "" + LongLine() == LongLine();
  }

  lemma LongLineDropped(s: Sys, path: string)
    requires ReadUpTo(s, path, |LongLine()|, Kept(LongLine()))
    ensures ReadUpTo(s, path, |LongLine()|, "") && !Tailed(s, path)
  {
    hide LongLine;
    assert s.Consumed(path) == LongLine();
    assert Joined([]) + "" != LongLine();
  }

  lemma RunUnrolled(ops: seq<Op>, parse: Parser)
    requires |ops| == 4
    ensures Run(ops[..1], parse) == Step(Sys(map[], Store(map[], []), map[]), ops[0], parse)
    ensures Run(ops[..2], parse) == Step(Run(ops[..1], parse), ops[1], parse)
    ensures Run(ops[..3], parse) == Step(Run(ops[..2], parse), ops[2], parse)
    ensures Run(ops, parse) == Step(Run(ops[..3], parse), ops[3], parse)
  {
    hide Step;
    assert ops[..1][..0] == [] && ops[..2][..1] == ops[..1] && ops[..3][..2] == ops[..2];
    assert Run(ops[..1][..0], parse) == Sys(map[], Store(map[], []), map[]);
  }
}
