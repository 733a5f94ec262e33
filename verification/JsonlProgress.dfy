/** The tailer gets somewhere: how far one scan reads, and that enough scans ingest the whole file. */
module JsonlProgress {
  import opened LineSplit
  import opened JsonlIngest
  import opened JsonlLaws
  import opened JsonlLimits

  /** How far a scan from this offset reads: 256 KiB on, or to the end of the file. */
  function ReadTo(offset: nat, length: nat): nat {
    if offset + 262144 <= length then offset + 262144 else length
  }

  lemma ChunkReads(content: string, offset: nat)
    requires offset <= |content|
    ensures Chunk(content, offset) == content[offset..ReadTo(offset, |content|)]
  {
  }

  /** A scan that persists its cursor moves it by 256 KiB or to the end of the file, even when the file has just grown. */
  lemma PersistedScanAdvances(s: Sys, path: string, growth: string, fault: Fault, parse: Parser)
    requires Tailed(s, path) && path in s.files && Persists(s, path, s.Content(path) + growth, fault, parse)
    ensures var offset, length := s.st.CursorOf(path).offset, |s.Content(path) + growth|;
      Step(s, Scan(path, growth, fault), parse).st.CursorOf(path).offset == ReadTo(offset, length)
  {
    LoadedIsCursor(s, path);
    hide Splits;
    hide StopsAt;
    hide SplitCompleteLines;
    hide Ingested;
    hide Kept;
    var content, offset := s.Content(path) + growth, s.st.CursorOf(path).offset;
    ChunkReads(content, offset);
    hide Chunk;
    assert Grown(s, path, growth).Content(path) == content;
  }

  // Scanning on in a file that does not grow.

  function Scans(s: Sys, path: string, k: nat, parse: Parser): Sys {
    if k == 0 then s else Step(Scans(s, path, k - 1, parse), Scan(path, "", NoFault), parse)
  }

  lemma QuietScanPersists(s: Sys, path: string, parse: Parser)
    requires path in s.files
    ensures Persists(s, path, s.Content(path) + "", NoFault, parse)
    ensures Step(s, Scan(path, "", NoFault), parse).files == s.files
  {
    hide Scanned;
    hide NewLines;
    assert s.Content(path) + "" == s.Content(path) && s.files[path := s.Content(path)] == s.files;
  }

  lemma OneMoreScan(s: Sys, path: string, parse: Parser)
    requires Good(s, parse) && path in s.files && ShortStretches(s.Content(path))
    ensures var t := Step(s, Scan(path, "", NoFault), parse);
      && Good(t, parse) && t.files == s.files
      && t.st.CursorOf(path).offset == ReadTo(s.st.CursorOf(path).offset, |s.Content(path)|)
  {
    GoodTails(s, path, parse);
    QuietScanPersists(s, path, parse);
    PersistedScanAdvances(s, path, "", NoFault, parse);
    assert s.Content(path) + "" == s.Content(path);
    hide Good;
    hide Step;
    hide ShortStretches;
    hide Tailed;
    ScanFits(s, path, "", NoFault);
    FittingFits(s, Scan(path, "", NoFault), parse);
    ScanKeeps(s, path, "", NoFault, parse);
  }

  /** The same after k scans. */
  function ReadAfter(offset: nat, length: nat, k: nat): nat {
    if offset + 262144 * k <= length then offset + 262144 * k else length
  }

  lemma ReadOn(offset: nat, length: nat, k: nat)
    requires offset <= length
    ensures ReadAfter(offset, length, 0) == offset
    ensures k > 0 ==> ReadTo(ReadAfter(offset, length, k - 1), length) == ReadAfter(offset, length, k)
  {
  }

  lemma SameContent(s: Sys, t: Sys, path: string)
    requires t.files == s.files
    ensures t.Content(path) == s.Content(path)
  {
  }

  lemma TailedWithin(s: Sys, path: string, parse: Parser)
    requires Good(s, parse)
    ensures s.st.CursorOf(path).offset <= |s.Content(path)|
  {
    GoodTails(s, path, parse);
  }

  lemma {:induction false} ScansAdvance(s: Sys, path: string, k: nat, parse: Parser)
    requires Good(s, parse) && path in s.files && ShortStretches(s.Content(path))
    ensures var t := Scans(s, path, k, parse);
      && Good(t, parse) && t.files == s.files
      && t.st.CursorOf(path).offset == ReadAfter(s.st.CursorOf(path).offset, |s.Content(path)|, k)
  {
    hide *;
    TailedWithin(s, path, parse);
    ReadOn(s.st.CursorOf(path).offset, |s.Content(path)|, k);
    ScansUnrolled(s, path, k, parse);
    if k > 0 {
      ScansAdvance(s, path, k - 1, parse);
      SameContent(s, Scans(s, path, k - 1, parse), path);
      OneMoreScan(Scans(s, path, k - 1, parse), path, parse);
    }
  }

  lemma ScansUnrolled(s: Sys, path: string, k: nat, parse: Parser)
    ensures k == 0 ==> Scans(s, path, k, parse) == s
    ensures k > 0 ==> Scans(s, path, k, parse) == Step(Scans(s, path, k - 1, parse), Scan(path, "", NoFault), parse)
  {
  }

  /**
    Liveness. Once a file stops growing, as many fault-free scans as it takes to
    read its rest ingest all of it: the cursor is at the end, the lines handed on
    are the complete lines of the file, and the event of each is stored.
   */
  lemma EnoughScansIngestAll(s: Sys, path: string, k: nat, parse: Parser)
    requires Good(s, parse) && path in s.files && ShortStretches(s.Content(path))
    requires s.st.CursorOf(path).offset + 262144 * k >= |s.Content(path)|
    ensures var t, content := Scans(s, path, k, parse), s.Content(path);
      && t.Content(path) == content && t.st.CursorOf(path) == Cursor(|content|, Tail(content))
      && t.EmittedFrom(path) == Lines(content)
      && forall l :: l in Lines(content) && parse(l, path).Some? ==> t.st.Has(parse(l, path).value.fingerprint)
  {
    ScansAdvance(s, path, k, parse);
    var t := Scans(s, path, k, parse);
    hide Scans;
    hide ShortStretches;
    hide Lines;
    hide Tail;
    hide Splits;
    assert Tailed(t, path) && Complete(t, path, parse);
    TailedIsCanonical(t, path);
    assert t.Consumed(path) == s.Content(path);
  }

  /** From the start: a file with short lines is ingested whole by one scan for every 256 KiB of it or part thereof. */
  lemma FreshFileIsIngested(path: string, content: string, k: nat, parse: Parser)
    requires ShortStretches(content) && 262144 * k >= |content|
    ensures var t := Scans(Run([Append(path, content)], parse), path, k, parse);
      && t.EmittedFrom(path) == Lines(content)
      && forall l :: l in Lines(content) && parse(l, path).Some? ==> t.st.Has(parse(l, path).value.fingerprint)
  {
    var ops := [Append(path, content)];
    assert ops[..0] == [] && AlwaysFits(ops[..0], parse) && AlwaysFits(ops, parse);
    var s := Run(ops, parse);
    assert Run(ops[..0], parse) == Sys(map[], Store(map[], []), map[]);
    assert "" + content == content;
    assert s.Content(path) == content && s.st.CursorOf(path).offset == 0 && path in s.files;
    RunIsGood(ops, parse);
    hide Run;
    hide Scans;
    hide Lines;
    hide ShortStretches;
    EnoughScansIngestAll(s, path, k, parse);
  }

  /** A file that shrank below the cursor is read afresh: what was kept of it is forgotten, and reading starts at its first byte. */
  lemma ShrunkFileIsReadAfresh(st: Store, path: string, statSize: nat, content: string, parse: Parser)
    requires statSize < st.CursorOf(path).offset
    ensures var t, read := Scanned(st, path, statSize, content, NoFault, parse), content[..ReadTo(0, |content|)];
      && t.CursorOf(path) == Cursor(|read|, Kept(Tail(read)))
      && t.rows == Ingested(st.rows, Lines(read), path, parse)
  {
    ChunkReads(content, 0);
    hide Chunk;
    hide Ingested;
    var read := content[..ReadTo(0, |content|)];
    assert "" + read == read;
    if read == "" {
      assert SplitCompleteLines(read) == ([], "");
    }
    hide SplitCompleteLines;
    hide Kept;
    NothingKept();
  }

  lemma NothingKept()
    ensures Kept("") == ""
  {
  }
}
