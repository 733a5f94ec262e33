/** The rotating scan cursor is fair: over enough scans of a stable listing, every file gets its turn. */
module FileRotation {
  import opened JsonlIngest

  /** The cursor after k scans of the same n paths. */
  function CursorAfter(n: nat, cursor: nat, k: nat): nat
    requires n > MAX_FILES_PER_SCAN
  {
    if k == 0 then cursor else Slot(n, CursorAfter(n, cursor, k - 1) % n, MAX_FILES_PER_SCAN)
  }

  /** Scan k, counting from zero, looks at path index j. */
  predicate Visits(n: nat, cursor: nat, k: nat, j: nat)
    requires n > MAX_FILES_PER_SCAN
  {
    exists i :: 0 <= i < MAX_FILES_PER_SCAN && Slot(n, CursorAfter(n, cursor, k) % n, i) == j
  }

  lemma ProductBounds(x: int, n: int)
    requires n >= 0
    ensures x >= 1 ==> x * n >= n
    ensures x <= -1 ==> x * n <= 0 - n
  {
  }

  lemma ModuloIsUnique(x: int, q: int, r: int, n: int)
    requires 0 <= r < n && x == q * n + r
    ensures x % n == r
  {
    var d, m := x / n, x % n;
    assert x == d * n + m;
    assert (q - d) * n == m - r;
    ProductBounds(q - d, n);
  }

  lemma ModuloOfSum(a: int, b: int, n: int)
    requires n > 0
    ensures (a % n + b) % n == (a + b) % n
  {
    var q, r := (a + b) / n, (a + b) % n;
    assert a == a / n * n + a % n;
    assert a % n + b == (q - a / n) * n + r by {
      assert (q - a / n) * n == q * n - a / n * n;
    }
    ModuloIsUnique(a % n + b, q - a / n, r, n);
  }

  lemma {:induction false} CursorAdvances(n: nat, cursor: nat, k: nat)
    requires n > MAX_FILES_PER_SCAN
    ensures CursorAfter(n, cursor, k) % n == (cursor + MAX_FILES_PER_SCAN * k) % n
  {
    if k > 0 {
      CursorAdvances(n, cursor, k - 1);
      var before := CursorAfter(n, cursor, k - 1) % n;
      ModuloOfSum(cursor + MAX_FILES_PER_SCAN * (k - 1), MAX_FILES_PER_SCAN, n);
      ModuloOfSum(before + MAX_FILES_PER_SCAN, 0, n);
    }
  }

  /** Fairness: any run of scans that together look at n files looks at every one of n files. */
  lemma EveryFileIsVisited(n: nat, cursor: nat, scans: nat, j: nat)
    requires n > MAX_FILES_PER_SCAN && scans * MAX_FILES_PER_SCAN >= n && j < n
    ensures exists k :: 0 <= k < scans && Visits(n, cursor, k, j)
  {
    var ahead := (j - cursor) % n;
    var k, i := ahead / MAX_FILES_PER_SCAN, ahead % MAX_FILES_PER_SCAN;
    CursorAdvances(n, cursor, k);
    ModuloOfSum(cursor + MAX_FILES_PER_SCAN * k, i, n);
    assert cursor + MAX_FILES_PER_SCAN * k + i == cursor + ahead;
    ModuloOfSum(j - cursor, cursor, n);
    ModuloIsUnique(j, 0, j, n);
    assert Slot(n, CursorAfter(n, cursor, k) % n, i) == j;
    assert Visits(n, cursor, k, j);
  }

  /** Walking fewer than n places never comes back to the same index. */
  lemma SlotsAreDistinct(n: nat, start: nat, i: nat, j: nat)
    requires start < n && i < j < n
    ensures Slot(n, start, i) != Slot(n, start, j)
  {
    WrapOnce(start, i, n);
    WrapOnce(start, j, n);
  }

  lemma WrapOnce(start: nat, i: nat, n: nat)
    requires start < n && i < n
    ensures Slot(n, start, i) == if start + i < n then start + i else start + i - n
  {
    if start + i < n {
      ModuloIsUnique(start + i, 0, start + i, n);
    } else {
      ModuloIsUnique(start + i, 1, start + i - n, n);
    }
  }

  /** A scan over the cap looks at MAX_FILES_PER_SCAN files, each once, those it visits, and leaves the cursor in range. */
  lemma SelectionIsDistinct(paths: seq<string>, cursor: nat)
    requires |paths| > 100 && forall i, j :: 0 <= i < j < |paths| ==> paths[i] != paths[j]
    ensures var (selected, next) := Selected(paths, cursor);
      && |selected| == 100 && next < |paths| && next == CursorAfter(|paths|, cursor, 1)
      && (forall i, j :: 0 <= i < j < |selected| ==> selected[i] != selected[j])
      && (forall j :: 0 <= j < |paths| ==> (Visits(|paths|, cursor, 0, j) <==> paths[j] in selected))
  {
    hide Slot;
    var n, start := |paths|, cursor % |paths|;
    var (selected, next) := Selected(paths, cursor);
    assert CursorAfter(n, cursor, 0) == cursor;
    forall i, j | 0 <= i < j < |selected|
      ensures selected[i] != selected[j]
    {
      SlotsAreDistinct(n, start, i, j);
    }
    forall j | 0 <= j < n
      ensures Visits(n, cursor, 0, j) <==> paths[j] in selected
    {
      if Visits(n, cursor, 0, j) {
        var i :| 0 <= i < MAX_FILES_PER_SCAN && Slot(n, start, i) == j;
        assert selected[i] == paths[j];
      }
      if paths[j] in selected {
        var i :| 0 <= i < |selected| && selected[i] == paths[j];
        assert Slot(n, start, i) == j;
      }
    }
  }

  // The selections themselves.

  /** The cursor before scan k of a stable listing. */
  function CursorBefore(paths: seq<string>, cursor: nat, k: nat): nat {
    if k == 0 then cursor else Selected(paths, CursorBefore(paths, cursor, k - 1)).1
  }

  /** The paths scan k looks at. */
  function Selection(paths: seq<string>, cursor: nat, k: nat): seq<string> {
    Selected(paths, CursorBefore(paths, cursor, k)).0
  }

  lemma {:induction false} CursorsAgree(paths: seq<string>, cursor: nat, k: nat)
    requires |paths| > MAX_FILES_PER_SCAN
    ensures CursorBefore(paths, cursor, k) == CursorAfter(|paths|, cursor, k)
  {
    if k > 0 {
      CursorsAgree(paths, cursor, k - 1);
    }
  }

  /** Every path of a stable listing, of any length, is in one of as many selections as it takes to look at that many files. */
  lemma EveryPathIsSelected(paths: seq<string>, cursor: nat, scans: nat, path: string)
    requires path in paths && scans * 100 >= |paths|
    ensures exists k :: 0 <= k < scans && path in Selection(paths, cursor, k)
  {
    var j :| 0 <= j < |paths| && paths[j] == path;
    if |paths| <= MAX_FILES_PER_SCAN {
      assert path in Selection(paths, cursor, 0);
    } else {
      EveryFileIsVisited(|paths|, cursor, scans, j);
      var k :| 0 <= k < scans && Visits(|paths|, cursor, k, j);
      CursorsAgree(paths, cursor, k);
      VisitedIsSelected(paths, CursorBefore(paths, cursor, k), j);
      assert path in Selection(paths, cursor, k);
    }
  }

  lemma VisitedIsSelected(paths: seq<string>, cursor: nat, j: nat)
    requires |paths| > MAX_FILES_PER_SCAN && j < |paths|
    requires exists i :: 0 <= i < MAX_FILES_PER_SCAN && Slot(|paths|, cursor % |paths|, i) == j
    ensures paths[j] in Selected(paths, cursor).0
  {
    var i :| 0 <= i < MAX_FILES_PER_SCAN && Slot(|paths|, cursor % |paths|, i) == j;
    assert Selected(paths, cursor).0[i] == paths[j];
  }
}
