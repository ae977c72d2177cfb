/** Splitting a growing buffer at LF, as both the line protocol and the upstream reader do. */
module Lines {
  import opened Text

  /** A line without the CR of a CRLF line end. */
  function DropCr(line: string): string {
    if line != "" && line[|line| - 1] == '\r' then line[..|line| - 1] else line
  }

  /** The complete lines of a buffer, without their LF, and the unfinished line it ends with. */
  function SplitLines(buffer: string): (r: (seq<string>, string))
    ensures |r.1| <= |buffer|
    decreases |buffer|
  {
    var i := IndexOf(buffer, '\n');
    if i == |buffer| then ([], buffer)
    else
      var (tail, rest) := SplitLines(buffer[i + 1..]);
      ([buffer[..i]] + tail, rest)
  }

  lemma SplitFirst(buffer: string)
    requires IndexOf(buffer, '\n') < |buffer|
    ensures var i := IndexOf(buffer, '\n');
            && SplitLines(buffer).0 == [buffer[..i]] + SplitLines(buffer[i + 1..]).0
            && SplitLines(buffer).1 == SplitLines(buffer[i + 1..]).1
  {
    hide IndexOf;
  }

  lemma SplitNone(buffer: string)
    requires IndexOf(buffer, '\n') == |buffer|
    ensures SplitLines(buffer) == ([], buffer)
  {
  }

  /** The bytes a list of lines came from. */
  function Terminated(lines: seq<string>): string {
    if lines == [] then "" else lines[0] + "\n" + Terminated(lines[1..])
  }

  lemma IndexOfSplit(a: string, b: string, c: char)
    ensures IndexOf(a, c) < |a| ==> IndexOf(a + b, c) == IndexOf(a, c)
    ensures IndexOf(a, c) == |a| ==> IndexOf(a + b, c) == |a| + IndexOf(b, c)
  {
    if a == "" {
      assert a + b == b;
    } else {
      assert (a + b)[1..] == a[1..] + b;
      IndexOfSplit(a[1..], b, c);
    }
  }

  lemma IndexOfAfter(line: string, rest: string)
    requires '\n' !in line
    ensures IndexOf(line + "\n" + rest, '\n') == |line|
  {
    IndexOfSplit(line, "\n" + rest, '\n');
    assert line + "\n" + rest == line + ("\n" + rest);
  }

  /** Splitting in two parts gives the lines, and the unfinished line, of the whole. */
  lemma {:induction false} SplitInTwo(a: string, b: string)
    ensures var (first, rest) := SplitLines(a);
            var (second, left) := SplitLines(rest + b);
            SplitLines(a + b) == (first + second, left)
    decreases |a|
  {
    hide SplitLines, IndexOf;
    var i := IndexOf(a, '\n');
    IndexOfSplit(a, b, '\n');
    if i < |a| {
      assert (a + b)[..i] == a[..i];
      assert (a + b)[i + 1..] == a[i + 1..] + b;
      SplitFirst(a);
      SplitFirst(a + b);
      SplitInTwo(a[i + 1..], b);
      var (tail, rest) := SplitLines(a[i + 1..]);
      Associative([a[..i]], tail, SplitLines(rest + b).0);
    } else {
      SplitNone(a);
      assert [] + SplitLines(a + b).0 == SplitLines(a + b).0;
    }
  }

  /** Splitting loses no byte. */
  lemma {:induction false} SplitConserves(buffer: string)
    ensures var (lines, rest) := SplitLines(buffer); buffer == Terminated(lines) + rest
    decreases |buffer|
  {
    hide IndexOf, SplitLines;
    var i := IndexOf(buffer, '\n');
    if i == |buffer| {
      SplitNone(buffer);
    } else {
      hide Terminated;
      SplitFirst(buffer);
      SplitConserves(buffer[i + 1..]);
      TerminatedCons(buffer[..i], SplitLines(buffer[i + 1..]).0, SplitLines(buffer[i + 1..]).1);
    }
  }

  lemma TerminatedCons(line: string, lines: seq<string>, rest: string)
    ensures Terminated([line] + lines) + rest == line + "\n" + (Terminated(lines) + rest)
  {
    assert ([line] + lines)[1..] == lines;
  }

  /** No line that splitting returns contains a LF. */
  lemma {:induction false} SplitLinesAreLfFree(buffer: string)
    ensures var (lines, rest) := SplitLines(buffer);
            '\n' !in rest && forall k | 0 <= k < |lines| :: '\n' !in lines[k]
    decreases |buffer|
  {
    var i := IndexOf(buffer, '\n');
    if i < |buffer| {
      SplitLinesAreLfFree(buffer[i + 1..]);
      var lines := SplitLines(buffer).0;
      assert lines[0] == buffer[..i];
      assert lines[1..] == SplitLines(buffer[i + 1..]).0;
      assert forall k | 1 <= k < |lines| :: lines[k] == lines[1..][k - 1];
    } else {
      assert buffer[..i] == buffer;
    }
  }

  /** Any list of LF-free lines is recovered from its bytes. */
  lemma {:induction false} SplitRecovers(lines: seq<string>, rest: string)
    requires '\n' !in rest && forall l | l in lines :: '\n' !in l
    ensures SplitLines(Terminated(lines) + rest) == (lines, rest)
  {
    if lines == [] {
      assert Terminated(lines) + rest == rest;
      assert IndexOf(rest, '\n') == |rest|;
    } else {
      var l, tail := lines[0], Terminated(lines[1..]) + rest;
      assert Terminated(lines) + rest == l + "\n" + tail;
      IndexOfAfter(l, tail);
      assert (l + "\n" + tail)[..|l|] == l;
      assert (l + "\n" + tail)[|l| + 1..] == tail;
      SplitRecovers(lines[1..], rest);
      assert [l] + lines[1..] == lines;
    }
  }
}
