/**
  The line splitter of server/internal/agent/api_integrations_ingest_agent.go.
  A Go string is a sequence of bytes; here every char stands for one byte.
 */
module LineSplit {

  /** strings.Split(s, "\n"): always at least one piece. */
  function Split(s: string): (pieces: seq<string>)
    ensures |pieces| >= 1
  {
    if s == "" then [""]
    else if s[0] == '\n' then [""] + Split(s[1..])
    else
      var pieces := Split(s[1..]);
      [[s[0]] + pieces[0]] + pieces[1..]
  }

  predicate HasNewlineSuffix(s: string) {
    s != "" && s[|s| - 1] == '\n'
  }

  /** The complete lines of the data, and what follows the last of them. */
  function SplitCompleteLines(data: string): (seq<string>, string) {
    if data == "" then ([], "")
    else if HasNewlineSuffix(data) then (Split(data[..|data| - 1]), "")
    else
      var lines := Split(data);
      if |lines| == 1 then ([], data) else (lines[..|lines| - 1], lines[|lines| - 1])
  }

  function Lines(s: string): seq<string> {
    SplitCompleteLines(s).0
  }

  function Tail(s: string): string {
    SplitCompleteLines(s).1
  }

  /** Every line followed by its newline. */
  function Joined(lines: seq<string>): string {
    if lines == [] then "" else lines[0] + "\n" + Joined(lines[1..])
  }

  predicate NoNewlineIn(lines: seq<string>) {
    forall l :: l in lines ==> '\n' !in l
  }

  /** What splitting means: the lines with their newlines, then the tail, are the data, and hold no other newline. */
  predicate Splits(s: string, lines: seq<string>, tail: string) {
    s == Joined(lines) + tail && NoNewlineIn(lines) && '\n' !in tail
  }

  lemma {:induction false} JoinedAppend(a: seq<string>, b: seq<string>)
    ensures Joined(a + b) == Joined(a) + Joined(b)
  {
    if a == [] {
      assert a + b == b;
    } else {
      assert (a + b)[1..] == a[1..] + b;
      JoinedAppend(a[1..], b);
    }
  }

  /** Split yields the complete lines and, as its last piece, the tail. */
  lemma {:induction false} SplitIsLinesAndTail(s: string)
    ensures var p := Split(s);
      Splits(s, p[..|p| - 1], p[|p| - 1])
  {
    if s != "" {
      SplitIsLinesAndTail(s[1..]);
      assert [s[0]] + s[1..] == s;
      PrependToSplit(s[0], s[1..]);
    }
  }

  lemma PrependToSplit(c: char, s: string)
    requires var q := Split(s);
      Splits(s, q[..|q| - 1], q[|q| - 1])
    ensures var p := Split([c] + s);
      Splits([c] + s, p[..|p| - 1], p[|p| - 1])
  {
    hide Splits;
    var q, p := Split(s), Split([c] + s);
    var lines, tail := q[..|q| - 1], q[|q| - 1];
    assert ([c] + s)[1..] == s;
    if c == '\n' {
      assert p[..|p| - 1] == [""] + lines;
      EmptyLineFirst(s, lines, tail);
    } else if lines != [] {
      assert p[..|p| - 1] == [[c] + lines[0]] + lines[1..];
      LongerFirstLine(c, s, lines, tail);
    } else {
      LongerTail(c, s, tail);
    }
  }

  lemma EmptyLineFirst(s: string, lines: seq<string>, tail: string)
    requires Splits(s, lines, tail)
    ensures Splits(['\n'] + s, [""] + lines, tail)
  {
    assert ([""] + lines)[1..] == lines;
  }

  lemma LongerFirstLine(c: char, s: string, lines: seq<string>, tail: string)
    requires Splits(s, lines, tail) && lines != [] && c != '\n'
    ensures Splits([c] + s, [[c] + lines[0]] + lines[1..], tail)
  {
    var longer := [[c] + lines[0]] + lines[1..];
    assert longer[1..] == lines[1..];
    assert lines[0] in lines;
    forall l | l in longer
      ensures '\n' !in l
    {
    }
    assert [c] + s == Joined(longer) + tail;
  }

  lemma LongerTail(c: char, s: string, tail: string)
    requires Splits(s, [], tail) && c != '\n'
    ensures Splits([c] + s, [], [c] + tail)
  {
  }

  lemma SplitCompleteLinesSplits(s: string)
    ensures Splits(s, Lines(s), Tail(s))
  {
    if s != "" {
      if HasNewlineSuffix(s) {
        var p := Split(s[..|s| - 1]);
        SplitIsLinesAndTail(s[..|s| - 1]);
        var last := p[|p| - 1];
        assert p == p[..|p| - 1] + [last];
        JoinedAppend(p[..|p| - 1], [last]);
        assert Joined([last]) == last + "\n" by { assert [last][1..] == []; }
        assert s == s[..|s| - 1] + "\n";
      } else {
        SplitIsLinesAndTail(s);
        SuffixWithoutNewline(s);
      }
    }
  }

  /** Data that does not end in a newline and has one piece is all tail. */
  lemma SuffixWithoutNewline(s: string)
    ensures |Split(s)| == 1 ==> Split(s)[0] == s
  {
    SplitIsLinesAndTail(s);
  }

  /** The first line ends at the first newline of the data; without a line there is no newline. */
  lemma FirstLine(s: string, lines: seq<string>, tail: string)
    requires Splits(s, lines, tail)
    ensures lines == [] ==> '\n' !in s && tail == s
    ensures lines != [] ==>
      && |lines[0]| < |s| && s[|lines[0]|] == '\n' && NoNewlineBefore(s, |lines[0]|)
      && lines[0] == s[..|lines[0]|]
      && Splits(s[|lines[0]| + 1..], lines[1..], tail)
  {
    if lines != [] {
      assert lines[0] in lines;
      assert forall i :: 0 <= i < |lines[0]| ==> s[i] == lines[0][i];
      assert s[|lines[0]| + 1..] == Joined(lines[1..]) + tail;
    }
  }

  predicate NoNewlineBefore(s: string, k: nat)
    requires k <= |s|
  {
    forall i :: 0 <= i < k ==> s[i] != '\n'
  }

  lemma FirstNewlineUnique(s: string, k: nat, m: nat)
    requires k < |s| && s[k] == '\n' && NoNewlineBefore(s, k)
    requires m < |s| && s[m] == '\n' && NoNewlineBefore(s, m)
    ensures k == m
  {
  }

  /** The decomposition is unique. */
  lemma {:induction false} SplitsUnique(s: string, a: seq<string>, t: string, b: seq<string>, u: string)
    requires Splits(s, a, t) && Splits(s, b, u)
    ensures a == b && t == u
  {
    FirstLine(s, a, t);
    FirstLine(s, b, u);
    hide Splits;
    if a != [] && b != [] {
      FirstNewlineUnique(s, |a[0]|, |b[0]|);
      SplitsUnique(s[|a[0]| + 1..], a[1..], t, b[1..], u);
      assert a == [a[0]] + a[1..] && b == [b[0]] + b[1..];
    }
  }

  lemma SplitsCompose(s: string, a: seq<string>, t: string, more: string, b: seq<string>, u: string)
    requires Splits(s, a, t) && Splits(t + more, b, u)
    ensures Splits(s + more, a + b, u)
  {
    JoinedAppend(a, b);
    hide Joined;
    calc {
      s + more;
      (Joined(a) + t) + more;
      Joined(a) + (t + more);
      Joined(a) + (Joined(b) + u);
      (Joined(a) + Joined(b)) + u;
    }
  }

  /** Splitting a tail with more data appended continues the splitting of the whole, wherever the cut falls. */
  lemma TailThenMore(s: string, more: string)
    ensures Lines(s + more) == Lines(s) + Lines(Tail(s) + more)
    ensures Tail(s + more) == Tail(Tail(s) + more)
  {
    SplitCompleteLinesSplits(s);
    SplitCompleteLinesSplits(s + more);
    SplitCompleteLinesSplits(Tail(s) + more);
    hide Splits;
    hide Lines;
    hide Tail;
    SplitsCompose(s, Lines(s), Tail(s), more, Lines(Tail(s) + more), Tail(Tail(s) + more));
    SplitsUnique(s + more, Lines(s + more), Tail(s + more), Lines(s) + Lines(Tail(s) + more), Tail(Tail(s) + more));
  }
}
