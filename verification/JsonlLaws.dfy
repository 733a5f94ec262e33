/** What the tailer guarantees over every run on append-only files. */
module JsonlLaws {
  import opened Prelude
  import opened LineSplit
  import opened JsonlIngest

  /** The files, the store, and the lines handed on by the scans whose cursor was persisted. */
  datatype Sys = Sys(files: map<string, string>, st: Store, emitted: map<string, seq<string>>) {
    function Content(path: string): string {
      if path in files then files[path] else ""
    }

    function EmittedFrom(path: string): seq<string> {
      if path in emitted then emitted[path] else []
    }

    /** The part of the file behind the cursor. */
    function Consumed(path: string): string {
      var offset := st.CursorOf(path).offset;
      if offset <= |Content(path)| then Content(path)[..offset] else Content(path)
    }
  }

  /** A writer appends; or the agent scans a file, which may grow between the stat and the read. */
  datatype Op = Append(path: string, text: string) | Scan(path: string, growth: string, fault: Fault)

  function Grown(s: Sys, path: string, text: string): Sys {
    s.(files := s.files[path := s.Content(path) + text])
  }

  /** The lines a scan would hand on. */
  function NewLines(s: Sys, path: string, content: string): seq<string> {
    var c := s.st.CursorOf(path);
    Lines(c.partial + Chunk(content, c.offset))
  }

  predicate Persists(s: Sys, path: string, content: string, fault: Fault, parse: Parser) {
    !fault.BeforeInserts? && !fault.UpsertFails? && !StopsAt(NewLines(s, path, content), path, parse, fault)
  }

  function Step(s: Sys, op: Op, parse: Parser): Sys {
    match op
    case Append(path, text) => Grown(s, path, text)
    case Scan(path, growth, fault) =>
      if path !in s.files then s
      else
        var statSize := |s.Content(path)|;
        var g := Grown(s, path, growth);
        var content := g.Content(path);
        Sys(g.files, Scanned(s.st, path, statSize, content, fault, parse),
            if Persists(s, path, content, fault, parse)
            then s.emitted[path := s.EmittedFrom(path) + NewLines(s, path, content)] else s.emitted)
  }

  function Run(ops: seq<Op>, parse: Parser): Sys {
    if ops == [] then Sys(map[], Store(map[], []), map[]) else Step(Run(ops[..|ops| - 1], parse), ops[|ops| - 1], parse)
  }

  // The guarantees of one file.

  /** Whatever the chunk boundaries were, lines and partial line are the splitting of the bytes consumed. */
  predicate Tailed(s: Sys, path: string) {
    && s.st.CursorOf(path).offset <= |s.Content(path)|
    && |s.st.CursorOf(path).partial| <= MAX_PARTIAL_BYTES
    && Splits(s.Consumed(path), s.EmittedFrom(path), s.st.CursorOf(path).partial)
  }

  /** Every event of a complete line consumed is stored. */
  ghost predicate Complete(s: Sys, path: string, parse: Parser) {
    forall l :: l in s.EmittedFrom(path) && parse(l, path).Some? ==> s.st.Has(parse(l, path).value.fingerprint)
  }

  /** e is the event of a complete line of the file. */
  predicate ComesFrom(s: Sys, path: string, e: Event, parse: Parser) {
    exists l :: l in Lines(s.Content(path)) && parse(l, path) == Some(e)
  }

  /** Every stored event is the event of a complete line of some file. */
  ghost predicate Sound(s: Sys, parse: Parser) {
    forall e :: e in s.st.rows ==> exists path :: ComesFrom(s, path, e, parse)
  }

  /** No fingerprint is stored twice. */
  predicate Unique(rows: seq<Event>) {
    forall i, j :: 0 <= i < j < |rows| ==> rows[i].fingerprint != rows[j].fingerprint
  }

  ghost predicate Good(s: Sys, parse: Parser) {
    && (forall path :: Tailed(s, path) && Complete(s, path, parse))
    && Sound(s, parse) && Unique(s.st.rows)
  }

  /** The line under construction stays within the limit, so the scan does not drop it. */
  predicate Fits(s: Sys, op: Op) {
    op.Scan? && op.path in s.files ==>
      var c := s.st.CursorOf(op.path);
      |Tail(c.partial + Chunk(s.Content(op.path) + op.growth, c.offset))| <= MAX_PARTIAL_BYTES
  }

  /** A scan that does not get to persist its cursor may find anything. */
  predicate FitsIfPersisted(s: Sys, op: Op, parse: Parser) {
    op.Scan? && op.path in s.files && Persists(s, op.path, s.Content(op.path) + op.growth, op.fault, parse) ==> Fits(s, op)
  }

  predicate AlwaysFits(ops: seq<Op>, parse: Parser) {
    ops == [] || (AlwaysFits(ops[..|ops| - 1], parse) && FitsIfPersisted(Run(ops[..|ops| - 1], parse), ops[|ops| - 1], parse))
  }

  // Inserting the events of some lines.

  lemma {:induction false} IngestedKeepsRows(rows: seq<Event>, lines: seq<string>, path: string, parse: Parser)
    ensures rows <= Ingested(rows, lines, path, parse)
    ensures Unique(rows) ==> Unique(Ingested(rows, lines, path, parse))
  {
    if lines != [] {
      IngestedKeepsRows(rows, lines[..|lines| - 1], path, parse);
    }
  }

  lemma {:induction false} IngestedStoresEvents(rows: seq<Event>, lines: seq<string>, path: string, parse: Parser)
    ensures forall l :: l in lines && parse(l, path).Some? ==>
      Store(map[], Ingested(rows, lines, path, parse)).Has(parse(l, path).value.fingerprint)
  {
    if lines != [] {
      var front, last := lines[..|lines| - 1], lines[|lines| - 1];
      IngestedStoresEvents(rows, front, path, parse);
      var before, after := Ingested(rows, front, path, parse), Ingested(rows, lines, path, parse);
      assert before <= after;
      assert lines == front + [last];
      forall l | l in lines && parse(l, path).Some?
        ensures Store(map[], after).Has(parse(l, path).value.fingerprint)
      {
        var f := parse(l, path).value.fingerprint;
        if l in front {
          HasGrows(before, after, f);
        } else {
          LastIsStored(before, parse(l, path).value);
        }
      }
    }
  }

  lemma HasGrows(before: seq<Event>, after: seq<Event>, fingerprint: string)
    requires before <= after && Store(map[], before).Has(fingerprint)
    ensures Store(map[], after).Has(fingerprint)
  {
    var e :| e in before && e.fingerprint == fingerprint;
    assert e in after;
  }

  lemma LastIsStored(before: seq<Event>, e: Event)
    ensures Store(map[], Inserted(before, e)).Has(e.fingerprint)
  {
    assert e in before + [e];
  }

  lemma {:induction false} IngestedComesFromLines(rows: seq<Event>, lines: seq<string>, path: string, parse: Parser)
    ensures forall e :: e in Ingested(rows, lines, path, parse) ==>
      e in rows || exists l :: l in lines && parse(l, path) == Some(e)
  {
    if lines != [] {
      var front, last := lines[..|lines| - 1], lines[|lines| - 1];
      IngestedComesFromLines(rows, front, path, parse);
      assert last in lines;
      assert forall l :: l in front ==> l in lines;
    }
  }

  // One step.

  lemma ConsumedGrows(s: Sys, path: string, text: string, p: string)
    requires Tailed(s, p)
    ensures Tailed(Grown(s, path, text), p)
  {
    var g := Grown(s, path, text);
    assert g.Consumed(p) == s.Consumed(p);
  }

  lemma LinesGrow(s: string, more: string)
    ensures forall l :: l in Lines(s) ==> l in Lines(s + more)
  {
    TailThenMore(s, more);
  }

  lemma SoundGrows(s: Sys, path: string, text: string, parse: Parser)
    requires Sound(s, parse)
    ensures Sound(Grown(s, path, text), parse)
  {
    var g := Grown(s, path, text);
    forall e | e in s.st.rows
      ensures exists p :: ComesFrom(g, p, e, parse)
    {
      var p :| ComesFrom(s, p, e, parse);
      LinesGrow(s.Content(p), text);
      assert ComesFrom(g, p, e, parse);
    }
  }

  lemma GrownKeeps(s: Sys, path: string, text: string, parse: Parser)
    requires Good(s, parse)
    ensures Good(Grown(s, path, text), parse)
  {
    hide Tailed;
    hide Sound;
    forall p
      ensures Tailed(Grown(s, path, text), p) && Complete(Grown(s, path, text), p, parse)
    {
      ConsumedGrows(s, path, text, p);
      assert Complete(s, p, parse);
    }
    SoundGrows(s, path, text, parse);
  }

  lemma ChunkIsNext(content: string, offset: nat)
    requires offset <= |content|
    ensures offset + |Chunk(content, offset)| <= |content|
    ensures content[..offset] + Chunk(content, offset) == content[..offset + |Chunk(content, offset)|]
  {
  }

  lemma NoNewlineNoLines(tail: string)
    requires '\n' !in tail
    ensures Lines(tail) == [] && Tail(tail) == tail
  {
    SplitCompleteLinesSplits(tail);
    SplitsUnique(tail, Lines(tail), Tail(tail), [], tail);
  }

  /** The splitting the cursor stands for is the one the line splitter would make. */
  lemma TailedIsCanonical(s: Sys, path: string)
    requires Tailed(s, path)
    ensures Lines(s.Consumed(path)) == s.EmittedFrom(path) && Tail(s.Consumed(path)) == s.st.CursorOf(path).partial
  {
    hide Splits;
    var consumed := s.Consumed(path);
    SplitCompleteLinesSplits(consumed);
    SplitsUnique(consumed, Lines(consumed), Tail(consumed), s.EmittedFrom(path), s.st.CursorOf(path).partial);
  }

  /** The lines a scan hands on are complete lines of the file. */
  lemma NewLinesAreLines(s: Sys, path: string)
    requires Tailed(s, path)
    ensures forall l :: l in NewLines(s, path, s.Content(path)) ==> l in Lines(s.Content(path))
  {
    hide Lines;
    hide Tail;
    hide Splits;
    hide Chunk;
    TailedIsCanonical(s, path);
    var content, c := s.Content(path), s.st.CursorOf(path);
    var data := Chunk(content, c.offset);
    var consumed := content[..c.offset];
    ChunkIsNext(content, c.offset);
    TailThenMore(consumed, data);
    var rest := content[c.offset + |data|..];
    assert content == (consumed + data) + rest;
    LinesGrow(consumed + data, rest);
  }

  /** Storing the events of complete lines of one file keeps everything. */
  lemma RowsKeep(s: Sys, path: string, lines: seq<string>, parse: Parser)
    requires Good(s, parse)
    requires forall l :: l in lines ==> l in Lines(s.Content(path))
    ensures Good(s.(st := s.st.(rows := Ingested(s.st.rows, lines, path, parse))), parse)
  {
    hide Splits;
    hide Lines;
    hide Ingested;
    var t := s.(st := s.st.(rows := Ingested(s.st.rows, lines, path, parse)));
    IngestedKeepsRows(s.st.rows, lines, path, parse);
    IngestedComesFromLines(s.st.rows, lines, path, parse);
    forall p
      ensures Tailed(t, p) && Complete(t, p, parse)
    {
      assert Tailed(s, p) && Complete(s, p, parse);
      assert t.Consumed(p) == s.Consumed(p);
    }
    forall e | e in t.st.rows
      ensures exists p :: ComesFrom(t, p, e, parse)
    {
      if e in s.st.rows {
        var p :| ComesFrom(s, p, e, parse);
        assert ComesFrom(t, p, e, parse);
      } else {
        assert ComesFrom(t, path, e, parse);
      }
    }
  }

  /** Moving the cursor past a chunk whose events are stored keeps everything. */
  lemma CursorKeeps(s: Sys, path: string, parse: Parser)
    requires Good(s, parse)
    requires var c := s.st.CursorOf(path);
      |Tail(c.partial + Chunk(s.Content(path), c.offset))| <= MAX_PARTIAL_BYTES
    requires forall l :: l in NewLines(s, path, s.Content(path)) && parse(l, path).Some? ==>
      s.st.Has(parse(l, path).value.fingerprint)
    ensures var c := s.st.CursorOf(path);
      var data := Chunk(s.Content(path), c.offset);
      Good(s.(st := s.st.(cursors := s.st.cursors[path := Cursor(c.offset + |data|, Tail(c.partial + data))]),
              emitted := s.emitted[path := s.EmittedFrom(path) + NewLines(s, path, s.Content(path))]), parse)
  {
    hide Splits;
    hide Lines;
    hide Tail;
    hide Chunk;
    hide Unique;
    var content, c := s.Content(path), s.st.CursorOf(path);
    var data := Chunk(content, c.offset);
    var t := s.(st := s.st.(cursors := s.st.cursors[path := Cursor(c.offset + |data|, Tail(c.partial + data))]),
                emitted := s.emitted[path := s.EmittedFrom(path) + NewLines(s, path, content)]);
    assert Tailed(s, path) && Complete(s, path, parse);
    AdvancedTails(s, path, t);
    forall p
      ensures Tailed(t, p) && Complete(t, p, parse)
    {
      if p != path {
        assert Tailed(s, p) && Complete(s, p, parse);
        assert t.Consumed(p) == s.Consumed(p);
      }
    }
    forall e | e in t.st.rows
      ensures exists p :: ComesFrom(t, p, e, parse)
    {
      var p :| ComesFrom(s, p, e, parse);
      assert ComesFrom(t, p, e, parse);
    }
  }

  lemma AdvancedTails(s: Sys, path: string, t: Sys)
    requires Tailed(s, path) && t.files == s.files
    requires var c := s.st.CursorOf(path);
      var data := Chunk(s.Content(path), c.offset);
      && |Tail(c.partial + data)| <= MAX_PARTIAL_BYTES
      && t.st.CursorOf(path) == Cursor(c.offset + |data|, Tail(c.partial + data))
      && t.EmittedFrom(path) == s.EmittedFrom(path) + Lines(c.partial + data)
    ensures Tailed(t, path)
  {
    hide Splits;
    hide Lines;
    hide Tail;
    hide Chunk;
    var content, c := s.Content(path), s.st.CursorOf(path);
    var data := Chunk(content, c.offset);
    ChunkIsNext(content, c.offset);
    SplitCompleteLinesSplits(c.partial + data);
    SplitsCompose(s.Consumed(path), s.EmittedFrom(path), c.partial, data, Lines(c.partial + data), Tail(c.partial + data));
    assert t.Consumed(path) == content[..c.offset + |data|];
  }

  /** A scan whose cursor is as the invariant says reads on from it: no discarded partial line, no restart. */
  lemma LoadedIsCursor(s: Sys, path: string)
    requires Tailed(s, path)
    ensures Loaded(s.st, path, |s.Content(path)|) == s.st.CursorOf(path)
  {
    hide Splits;
  }

  lemma GoodTails(s: Sys, path: string, parse: Parser)
    requires Good(s, parse)
    ensures Tailed(s, path)
  {
  }

  lemma GrownFits(s: Sys, path: string, growth: string, fault: Fault)
    requires path in s.files && Fits(s, Scan(path, growth, fault))
    ensures var g, c := Grown(s, path, growth), s.st.CursorOf(path);
      g.st == s.st && |Tail(c.partial + Chunk(g.Content(path), c.offset))| <= MAX_PARTIAL_BYTES
  {
  }

  lemma FitsWhenPersisted(s: Sys, path: string, growth: string, fault: Fault, parse: Parser)
    requires path in s.files && FitsIfPersisted(s, Scan(path, growth, fault), parse)
    ensures var g := Grown(s, path, growth);
      !fault.BeforeInserts? && !fault.UpsertFails? && !StopsAt(NewLines(g, path, g.Content(path)), path, parse, fault) ==>
        Fits(s, Scan(path, growth, fault))
  {
    hide Lines;
    hide Chunk;
    hide StopsAt;
  }

  lemma ScanKeeps(s: Sys, path: string, growth: string, fault: Fault, parse: Parser)
    requires Good(s, parse) && path in s.files && FitsIfPersisted(s, Scan(path, growth, fault), parse)
    ensures Good(Step(s, Scan(path, growth, fault), parse), parse)
  {
    hide *;
    var g := Grown(s, path, growth);
    GoodTails(s, path, parse);
    LoadedIsCursor(s, path);
    GrownKeeps(s, path, growth, parse);
    GoodTails(g, path, parse);
    NewLinesAreLines(g, path);
    ScanStep(s, path, growth, fault, parse);
    FitsWhenPersisted(s, path, growth, fault, parse);
    var lines := NewLines(g, path, g.Content(path));
    if !fault.BeforeInserts? {
      if Chunk(g.Content(path), s.st.CursorOf(path).offset) == "" {
        EmptyScanKeeps(s, path, growth, fault, parse);
      } else if StopsAt(lines, path, parse, fault) {
        RowsKeep(g, path, lines[..fault.at], parse);
      } else {
        RowsKeep(g, path, lines, parse);
        if !fault.UpsertFails? {
          GrownFits(s, path, growth, fault);
          FullyKept(Tail(s.st.CursorOf(path).partial + Chunk(g.Content(path), s.st.CursorOf(path).offset)));
          PersistedScanKeeps(g, path, parse);
        }
      }
    }
  }

  /** What a scan of a file with something to read comes to, fault by fault. */
  lemma ScanStep(s: Sys, path: string, growth: string, fault: Fault, parse: Parser)
    requires path in s.files && Loaded(s.st, path, |s.Content(path)|) == s.st.CursorOf(path)
    ensures var t, g, c := Step(s, Scan(path, growth, fault), parse), Grown(s, path, growth), s.st.CursorOf(path);
      var lines, data := NewLines(g, path, g.Content(path)), Chunk(g.Content(path), c.offset);
      && g.Content(path) == s.Content(path) + growth
      && (StopsAt(lines, path, parse, fault) ==> fault.InsertFails? && fault.at < |lines|)
      && (fault.BeforeInserts? ==> t == g)
      && (!fault.BeforeInserts? && data != "" ==>
            if StopsAt(lines, path, parse, fault) then t == g.(st := g.st.(rows := Ingested(g.st.rows, lines[..fault.at], path, parse)))
            else if fault.UpsertFails? then t == g.(st := g.st.(rows := Ingested(g.st.rows, lines, path, parse)))
            else t == Sys(g.files,
                          Store(g.st.cursors[path := Cursor(c.offset + |data|, Kept(Tail(c.partial + data)))],
                                Ingested(g.st.rows, lines, path, parse)),
                          g.emitted[path := g.EmittedFrom(path) + lines]))
  {
    hide *;
    var g := Grown(s, path, growth);
    GrownContent(s, path, growth);
    StepOfScan(s, path, growth, fault, parse);
    ScannedStep(s.st, path, |s.Content(path)|, g.Content(path), fault, parse);
    NewLinesAre(g, path);
  }

  lemma GrownContent(s: Sys, path: string, growth: string)
    ensures var g := Grown(s, path, growth);
      g.Content(path) == s.Content(path) + growth && g.st == s.st && g == Sys(g.files, s.st, s.emitted)
      && g.EmittedFrom(path) == s.EmittedFrom(path)
  {
  }

  lemma NewLinesAre(s: Sys, path: string)
    ensures var c := s.st.CursorOf(path);
      NewLines(s, path, s.Content(path)) == Lines(c.partial + Chunk(s.Content(path), c.offset))
  {
  }

  lemma StepOfScan(s: Sys, path: string, growth: string, fault: Fault, parse: Parser)
    requires path in s.files
    ensures var t, g := Step(s, Scan(path, growth, fault), parse), Grown(s, path, growth);
      var lines := NewLines(g, path, g.Content(path));
      && t.files == g.files
      && t.st == Scanned(s.st, path, |s.Content(path)|, g.Content(path), fault, parse)
      && t.emitted == if !fault.BeforeInserts? && !fault.UpsertFails? && !StopsAt(lines, path, parse, fault)
                      then g.emitted[path := g.EmittedFrom(path) + lines] else g.emitted
  {
    hide Scanned;
    hide StopsAt;
    hide Lines;
    hide Chunk;
  }

  lemma FullyKept(partial: string)
    ensures Kept(partial) == if |partial| <= MAX_PARTIAL_BYTES then partial else ""
  {
  }

  /** A scan of something to read from the cursor as it is stored. */
  lemma ScannedStep(st: Store, path: string, statSize: nat, content: string, fault: Fault, parse: Parser)
    requires Loaded(st, path, statSize) == st.CursorOf(path)
    ensures var t, c := Scanned(st, path, statSize, content, fault, parse), st.CursorOf(path);
      var data := Chunk(content, c.offset);
      var lines := Lines(c.partial + data);
      && (StopsAt(lines, path, parse, fault) ==> fault.InsertFails? && fault.at < |lines|)
      && (fault.BeforeInserts? ==> t == st)
      && (!fault.BeforeInserts? && data != "" ==>
            if StopsAt(lines, path, parse, fault) then t == st.(rows := Ingested(st.rows, lines[..fault.at], path, parse))
            else if fault.UpsertFails? then t == st.(rows := Ingested(st.rows, lines, path, parse))
            else t == Store(st.cursors[path := Cursor(c.offset + |data|, Kept(Tail(c.partial + data)))],
                            Ingested(st.rows, lines, path, parse)))
  {
    hide Ingested;
    hide Chunk;
    hide Loaded;
    hide SplitCompleteLines;
  }

  lemma EmptyScanKeeps(s: Sys, path: string, growth: string, fault: Fault, parse: Parser)
    requires Good(Grown(s, path, growth), parse) && path in s.files && !fault.BeforeInserts?
    requires Loaded(s.st, path, |s.Content(path)|) == s.st.CursorOf(path)
    requires Chunk(s.Content(path) + growth, s.st.CursorOf(path).offset) == ""
    ensures Good(Step(s, Scan(path, growth, fault), parse), parse)
  {
    var g := Grown(s, path, growth);
    var partial := s.st.CursorOf(path).partial;
    assert Tailed(g, path);
    assert partial + "" == partial;
    NoNewlineNoLines(partial);
    hide Good;
    hide Lines;
    assert NewLines(g, path, g.Content(path)) == [];
    NothingNew(g, path, Step(s, Scan(path, growth, fault), parse), parse);
  }

  /** A complete scan: all events stored, then the cursor moved. */
  lemma PersistedScanKeeps(g: Sys, path: string, parse: Parser)
    requires Good(g.(st := g.st.(rows := Ingested(g.st.rows, NewLines(g, path, g.Content(path)), path, parse))), parse)
    requires var c := g.st.CursorOf(path);
      |Tail(c.partial + Chunk(g.Content(path), c.offset))| <= MAX_PARTIAL_BYTES
    ensures var c := g.st.CursorOf(path);
      var data := Chunk(g.Content(path), c.offset);
      var lines := NewLines(g, path, g.Content(path));
      Good(Sys(g.files,
               Store(g.st.cursors[path := Cursor(c.offset + |data|, Tail(c.partial + data))], Ingested(g.st.rows, lines, path, parse)),
               g.emitted[path := g.EmittedFrom(path) + lines]), parse)
  {
    hide Good;
    hide Lines;
    hide Tail;
    hide Ingested;
    var lines := NewLines(g, path, g.Content(path));
    var r := g.(st := g.st.(rows := Ingested(g.st.rows, lines, path, parse)));
    IngestedStoresEvents(g.st.rows, lines, path, parse);
    forall l | l in lines && parse(l, path).Some?
      ensures r.st.Has(parse(l, path).value.fingerprint)
    {
      HasGrows(r.st.rows, r.st.rows, parse(l, path).value.fingerprint);
    }
    CursorKeeps(r, path, parse);
  }

  /** A scan that finds nothing new may write back the cursor it read. */
  lemma NothingNew(g: Sys, path: string, t: Sys, parse: Parser)
    requires Good(g, parse) && t.files == g.files && t.st.rows == g.st.rows
    requires forall p :: t.st.CursorOf(p) == g.st.CursorOf(p)
    requires forall p :: t.EmittedFrom(p) == g.EmittedFrom(p)
    ensures Good(t, parse)
  {
    hide Splits;
    hide Lines;
    forall p
      ensures Tailed(t, p) && Complete(t, p, parse)
    {
      assert Tailed(g, p) && Complete(g, p, parse);
    }
    forall e | e in t.st.rows
      ensures exists p :: ComesFrom(t, p, e, parse)
    {
      var p :| ComesFrom(g, p, e, parse);
      assert ComesFrom(t, p, e, parse);
    }
  }

  lemma ScannedKeepsUnique(st: Store, path: string, statSize: nat, content: string, fault: Fault, parse: Parser)
    requires Unique(st.rows)
    ensures Unique(Scanned(st, path, statSize, content, fault, parse).rows)
  {
    var c := Loaded(st, path, statSize);
    var lines := SplitCompleteLines(c.partial + Chunk(content, c.offset)).0;
    hide Loaded;
    hide Chunk;
    hide SplitCompleteLines;
    hide Ingested;
    hide Unique;
    IngestedKeepsRows(st.rows, lines, path, parse);
    if fault.InsertFails? && fault.at < |lines| {
      IngestedKeepsRows(st.rows, lines[..fault.at], path, parse);
    }
  }

  /** In every run, whatever fails and however long the lines are, no fingerprint is stored twice. */
  lemma {:induction false} NothingIsStoredTwice(ops: seq<Op>, parse: Parser)
    ensures Unique(Run(ops, parse).st.rows)
  {
    if ops != [] {
      var s, op := Run(ops[..|ops| - 1], parse), ops[|ops| - 1];
      NothingIsStoredTwice(ops[..|ops| - 1], parse);
      hide Scanned;
      hide Unique;
      if op.Scan? && op.path in s.files {
        ScannedKeepsUnique(s.st, op.path, |s.Content(op.path)|, Grown(s, op.path, op.growth).Content(op.path), op.fault, parse);
      }
    }
  }

  /**
    Tailing and exactly-once ingestion over every run, whatever fails. At every
    point: the lines handed on and the partial line are the splitting of the bytes
    behind the cursor; every event there is stored; every stored event is the
    event of a complete line of some file; nothing is stored twice.
   */
  lemma {:induction false} RunIsGood(ops: seq<Op>, parse: Parser)
    requires AlwaysFits(ops, parse)
    ensures Good(Run(ops, parse), parse)
  {
    if ops == [] {
    } else {
      var s, op := Run(ops[..|ops| - 1], parse), ops[|ops| - 1];
      RunIsGood(ops[..|ops| - 1], parse);
      hide Good;
      hide Run;
      match op
      case Append(path, text) => GrownKeeps(s, path, text, parse);
      case Scan(path, growth, fault) =>
        if path in s.files {
          ScanKeeps(s, path, growth, fault, parse);
        }
    }
  }

  /** The same in terms of the file: the bytes before a cursor have had their complete lines ingested, no more and no less. */
  lemma ConsumedIsIngested(ops: seq<Op>, path: string, parse: Parser)
    requires AlwaysFits(ops, parse)
    ensures var s := Run(ops, parse);
      && s.EmittedFrom(path) == Lines(s.Consumed(path))
      && s.st.CursorOf(path).partial == Tail(s.Consumed(path))
      && (forall l :: l in Lines(s.Consumed(path)) && parse(l, path).Some? ==> s.st.Has(parse(l, path).value.fingerprint))
  {
    hide Lines;
    hide Tail;
    var s := Run(ops, parse);
    RunIsGood(ops, parse);
    assert Tailed(s, path) && Complete(s, path, parse);
    TailedIsCanonical(s, path);
  }

  /** The size limit is the exact price: a persisted scan keeps the splitting iff the unfinished line fits. */
  lemma PersistedScanTailsIffFits(s: Sys, path: string, growth: string, fault: Fault, parse: Parser)
    requires Good(s, parse) && path in s.files
    requires Persists(s, path, s.Content(path) + growth, fault, parse)
    requires Chunk(s.Content(path) + growth, s.st.CursorOf(path).offset) != ""
    ensures Tailed(Step(s, Scan(path, growth, fault), parse), path) <==> Fits(s, Scan(path, growth, fault))
  {
    hide *;
    if Fits(s, Scan(path, growth, fault)) {
      FittingFits(s, Scan(path, growth, fault), parse);
      ScanKeeps(s, path, growth, fault, parse);
      GoodTails(Step(s, Scan(path, growth, fault), parse), path, parse);
    } else {
      DroppedLineIsLost(s, path, growth, fault, parse);
    }
  }

  lemma FittingFits(s: Sys, op: Op, parse: Parser)
    requires Fits(s, op)
    ensures FitsIfPersisted(s, op, parse)
  {
  }

  lemma DroppedLineIsLost(s: Sys, path: string, growth: string, fault: Fault, parse: Parser)
    requires Good(s, parse) && path in s.files && !Fits(s, Scan(path, growth, fault))
    requires Persists(s, path, s.Content(path) + growth, fault, parse)
    requires Chunk(s.Content(path) + growth, s.st.CursorOf(path).offset) != ""
    ensures !Tailed(Step(s, Scan(path, growth, fault), parse), path)
  {
    assert Tailed(s, path);
    LoadedIsCursor(s, path);
    hide Good;
    hide Ingested;
    hide Splits;
    hide StopsAt;
    hide SplitCompleteLines;
    var content, c := s.Content(path) + growth, s.st.CursorOf(path);
    var data := Chunk(content, c.offset);
    var t := Step(s, Scan(path, growth, fault), parse);
    ChunkIsNext(content, c.offset);
    hide Chunk;
    assert t.Content(path) == content && t.Consumed(path) == content[..c.offset + |data|];
    assert content[..c.offset] == s.Consumed(path);
    SplitCompleteLinesSplits(c.partial + data);
    SplitsCompose(s.Consumed(path), s.EmittedFrom(path), c.partial, data, Lines(c.partial + data), Tail(c.partial + data));
    if Tailed(t, path) {
      SplitsUnique(t.Consumed(path), t.EmittedFrom(path), "", t.EmittedFrom(path), Tail(c.partial + data));
    }
  }
}
