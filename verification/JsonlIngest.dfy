/**
  The JSONL tailer of server/internal/agent/api_integrations_ingest_agent.go over
  a store that keeps one cursor per file and refuses a fingerprint it already has.
 */
module JsonlIngest {
  import opened Prelude
  import opened LineSplit

  const MAX_READ_BYTES: nat := 256 * 1024
  const MAX_PARTIAL_BYTES: nat := 512 * 1024
  const MAX_FILES_PER_SCAN: nat := 100

  datatype Event = Event(fingerprint: string, body: string)

  /** Trimming and parsing one line: None for a blank or invalid line. The path is part of the fingerprint. */
  type Parser = (string, string) -> Option<Event>

  datatype Cursor = Cursor(offset: nat, partial: string)

  /** The persisted cursors and the stored events, in insertion order. */
  datatype Store = Store(cursors: map<string, Cursor>, rows: seq<Event>) {
    function CursorOf(path: string): Cursor {
      if path in cursors then cursors[path] else Cursor(0, "")
    }

    predicate Has(fingerprint: string) {
      exists e :: e in rows && e.fingerprint == fingerprint
    }
  }

  /** Where the scan of a file goes wrong, if it does. */
  datatype Fault = NoFault | BeforeInserts | InsertFails(at: nat) | UpsertFails

  /** The unique index: a fingerprint already stored is skipped. */
  function Inserted(rows: seq<Event>, e: Event): seq<Event> {
    if exists r :: r in rows && r.fingerprint == e.fingerprint then rows else rows + [e]
  }

  /** The rows after inserting the events of the lines, all of them or those before a failing insert. */
  function Ingested(rows: seq<Event>, lines: seq<string>, path: string, parse: Parser): seq<Event> {
    if lines == [] then rows
    else
      var before := Ingested(rows, lines[..|lines| - 1], path, parse);
      match parse(lines[|lines| - 1], path)
      case None => before
      case Some(e) => Inserted(before, e)
  }

  /** The lines whose inserts are reached: an insert fails only on a line that carries an event. */
  predicate StopsAt(lines: seq<string>, path: string, parse: Parser, fault: Fault) {
    fault.InsertFails? && fault.at < |lines| && parse(lines[fault.at], path).Some?
  }

  function Loaded(st: Store, path: string, statSize: nat): Cursor {
    var c := st.CursorOf(path);
    var kept := if |c.partial| > MAX_PARTIAL_BYTES then c.(partial := "") else c;
    if statSize < kept.offset then Cursor(0, "") else kept
  }

  /** The bytes read: from the offset to the end of the file or the read limit. */
  function Chunk(content: string, offset: nat): string {
    if offset >= |content| then ""
    else if |content| - offset > MAX_READ_BYTES then content[offset..offset + MAX_READ_BYTES]
    else content[offset..]
  }

  function Kept(partial: string): string {
    if |partial| > MAX_PARTIAL_BYTES then "" else partial
  }

  /** One scan of a file whose size was statSize when looked at and whose content is `content` when read. */
  function Scanned(st: Store, path: string, statSize: nat, content: string, fault: Fault, parse: Parser): Store {
    if fault.BeforeInserts? then st
    else
      var c := Loaded(st, path, statSize);
      var data := Chunk(content, c.offset);
      if data == "" then
        if fault.UpsertFails? then st else st.(cursors := st.cursors[path := c])
      else
        var (lines, remainder) := SplitCompleteLines(c.partial + data);
        if StopsAt(lines, path, parse, fault) then
          st.(rows := Ingested(st.rows, lines[..fault.at], path, parse))
        else
          var rows := Ingested(st.rows, lines, path, parse);
          if fault.UpsertFails? then st.(rows := rows)
          else Store(st.cursors[path := Cursor(c.offset + |data|, Kept(remainder))], rows)
  }

  class IngestAgent {
    const parse: Parser
    var scanPathCursor: nat
    var store: Store

    constructor (parse: Parser)
      ensures this.parse == parse && scanPathCursor == 0 && store == Store(map[], [])
    {
      this.parse, scanPathCursor, store := parse, 0, Store(map[], []);
    }

    /** Duplicates are skipped, so the loop goes on. */
    method InsertEvent(e: Event)
      modifies this`store
      ensures store == old(store).(rows := Inserted(old(store.rows), e))
    {
      if !(exists r :: r in store.rows && r.fingerprint == e.fingerprint) {
        store := store.(rows := store.rows + [e]);
      }
    }

    /** Inserts the events of the lines up to a failing insert. */
    method InsertLines(lines: seq<string>, path: string, fault: Fault) returns (ok: bool)
      modifies this`store
      ensures ok == !StopsAt(lines, path, parse, fault)
      ensures store == old(store).(rows := Ingested(old(store.rows), if ok then lines else lines[..fault.at], path, parse))
    {
      hide Inserted;
      for i := 0 to |lines|
        invariant store == old(store).(rows := Ingested(old(store.rows), lines[..i], path, parse))
        invariant fault.InsertFails? && fault.at < i ==> parse(lines[fault.at], path).None?
      {
        assert lines[..i + 1][..i] == lines[..i];
        var event := parse(lines[i], path);
        if event.Some? {
          if fault == InsertFails(i) {
            return false;
          }
          InsertEvent(event.value);
        }
      }
      assert lines[..|lines|] == lines;
      ok := true;
    }

    method ScanFile(path: string, statSize: nat, content: string, fault: Fault) returns (ok: bool)
      modifies this`store
      ensures store == Scanned(old(store), path, statSize, content, fault, parse)
    {
      hide Ingested;
      hide StopsAt;
      hide SplitCompleteLines;
      if fault.BeforeInserts? {
        return false;
      }
      var state := store.CursorOf(path);
      if |state.partial| > MAX_PARTIAL_BYTES {
        state := state.(partial := "");
      }
      if statSize < state.offset {
        state := Cursor(0, "");
      }
      var data := Chunk(content, state.offset);
      if |data| == 0 {
        if fault.UpsertFails? {
          return false;
        }
        store := store.(cursors := store.cursors[path := state]);
        return true;
      }
      var (lines, remainder) := SplitCompleteLines(state.partial + data);
      state := Cursor(state.offset + |data|, Kept(remainder));
      ok := InsertLines(lines, path, fault);
      if !ok {
        return;
      }
      if fault.UpsertFails? {
        return false;
      }
      store := store.(cursors := store.cursors[path := state]);
      ok := true;
    }

    /** The paths one scan looks at, with the cursor moved past them. */
    method SelectPaths(paths: seq<string>) returns (selected: seq<string>)
      modifies this`scanPathCursor
      ensures (selected, scanPathCursor) == Selected(paths, old(scanPathCursor))
    {
      if |paths| > MAX_FILES_PER_SCAN {
        var start := scanPathCursor % |paths|;
        selected := [];
        for i := 0 to MAX_FILES_PER_SCAN
          invariant |selected| == i && forall k :: 0 <= k < i ==> selected[k] == paths[Slot(|paths|, start, k)]
        {
          selected := selected + [paths[Slot(|paths|, start, i)]];
        }
        assert selected == Selected(paths, old(scanPathCursor)).0;
        scanPathCursor := (start + |selected|) % |paths|;
      } else {
        scanPathCursor := 0;
        selected := paths;
      }
    }
  }

  /** The index i places after start, wrapping around. */
  function Slot(n: nat, start: nat, i: nat): (j: nat)
    requires n > 0
    ensures j < n
  {
    (start + i) % n
  }

  function Selected(paths: seq<string>, cursor: nat): (seq<string>, nat) {
    if |paths| > MAX_FILES_PER_SCAN then
      var start := cursor % |paths|;
      (seq(MAX_FILES_PER_SCAN, k requires 0 <= k < MAX_FILES_PER_SCAN => paths[Slot(|paths|, start, k)]),
       Slot(|paths|, start, MAX_FILES_PER_SCAN))
    else (paths, 0)
  }
}
