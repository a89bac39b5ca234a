/**
 The output capture of the blocking command runner (`executeCommand` in
 Make.kt): every line the process prints is appended to a buffer followed
 by a newline. The lines are given as input; reading them from the process
 is not modelled. `ReadLines` is a reference reader that splits text at
 `'\n'`, used as the inverse of the fold.
 */
module Capture {

  const Newline: char := '\n'

  /** A line as a line reader hands it out: it holds no newline. */
  predicate IsLine(line: string) {
    Newline !in line
  }

  /** The reference meaning of the captured output: each line followed by a newline. */
  function Joined(lines: seq<string>): string
  {
    if |lines| == 0 then "" else lines[0] + [Newline] + Joined(lines[1..])
  }

  /** The number of characters the capture holds: each line's length plus one. */
  function TotalLength(lines: seq<string>): nat
  {
    if |lines| == 0 then 0 else |lines[0]| + 1 + TotalLength(lines[1..])
  }

  /** Appending one more line to the fold's input appends that line and a newline to its output. */
  lemma {:induction false} JoinedSnoc(lines: seq<string>, line: string)
    ensures Joined(lines + [line]) == Joined(lines) + line + [Newline]
    decreases |lines|
  {
    if |lines| == 0 {
      assert lines + [line] == [line];
    } else {
      assert (lines + [line])[1..] == lines[1..] + [line];
      JoinedSnoc(lines[1..], line);
    }
  }

  /** The captured output's length is the sum of each line's length plus one. */
  lemma {:induction false} JoinedLength(lines: seq<string>)
    ensures |Joined(lines)| == TotalLength(lines)
    decreases |lines|
  {
    if |lines| > 0 {
      JoinedLength(lines[1..]);
    }
  }

  /** The accumulation loop: start from an empty buffer and append each line
      and a newline, in the order the lines were read. */
  method CaptureOutput(lines: seq<string>) returns (output: string)
    ensures output == Joined(lines)
    ensures |output| == TotalLength(lines)
  {
    output := "";
    var i := 0;
    while i < |lines|
      invariant 0 <= i <= |lines|
      invariant output == Joined(lines[..i])
    {
      JoinedSnoc(lines[..i], lines[i]);
      assert lines[..i + 1] == lines[..i] + [lines[i]];
      output := output + lines[i] + [Newline];
      i := i + 1;
    }
    assert lines[..i] == lines;
    JoinedLength(lines);
  }

  /** Position of the first newline in `s`, or `|s|` when there is none. */
  function NewlineIndex(s: string): (k: nat)
    ensures k <= |s|
    ensures forall j :: 0 <= j < k ==> s[j] != Newline
    ensures k < |s| ==> s[k] == Newline
  {
    if |s| == 0 then 0
    else if s[0] == Newline then 0
    else 1 + NewlineIndex(s[1..])
  }

  /** A reference line reader: splits text at each newline; a final piece
      without a newline is still a line, and a trailing newline does not
      start an empty line. */
  function ReadLines(s: string): seq<string>
    decreases |s|
  {
    if |s| == 0 then []
    else
      var k := NewlineIndex(s);
      if k == |s| then [s] else [s[..k]] + ReadLines(s[k + 1..])
  }

  /** The reader never hands out a line that holds a newline. */
  lemma {:induction false} ReadLinesAreLines(s: string)
    ensures forall i :: 0 <= i < |ReadLines(s)| ==> IsLine(ReadLines(s)[i])
    decreases |s|
  {
    if |s| > 0 {
      var k := NewlineIndex(s);
      if k < |s| {
        ReadLinesAreLines(s[k + 1..]);
        var head := s[..k];
        assert IsLine(head);
      }
    }
  }

  /** Reading the captured output back yields exactly the lines that were captured. */
  lemma {:induction false} ReadLinesOfJoined(lines: seq<string>)
    requires forall i :: 0 <= i < |lines| ==> IsLine(lines[i])
    ensures ReadLines(Joined(lines)) == lines
    decreases |lines|
  {
    if |lines| > 0 {
      var s := Joined(lines);
      var head := lines[0];
      assert s == head + [Newline] + Joined(lines[1..]);
      var k := NewlineIndex(s);
      assert s[|head|] == Newline;
      assert k == |head|;
      assert s[..k] == head;
      assert s[k + 1..] == Joined(lines[1..]);
      ReadLinesOfJoined(lines[1..]);
    }
  }

  /** The text with a newline added unless it is empty or already ends in one. */
  function Terminated(s: string): string
  {
    if |s| == 0 || s[|s| - 1] == Newline then s else s + [Newline]
  }

  /** Text that already holds a newline is terminated by terminating what follows its first newline. */
  lemma TerminatedAfterNewline(a: string, b: string)
    ensures Terminated(a + [Newline] + b) == a + [Newline] + Terminated(b)
  {
    var s := a + [Newline] + b;
    if |b| > 0 {
      assert s[|s| - 1] == b[|b| - 1];
      if b[|b| - 1] != Newline {
        assert s + [Newline] == a + [Newline] + (b + [Newline]);
      }
    }
  }

  /** A text without a newline is read as one line. */
  lemma ReadLinesNoNewline(s: string)
    requires |s| > 0 && NewlineIndex(s) == |s|
    ensures Joined(ReadLines(s)) == Terminated(s)
  {
    assert ReadLines(s) == [s];
    assert Joined([s]) == s + [Newline] + Joined([]);
    assert s[|s| - 1] != Newline;
  }

  /** One step of the reader: the text up to the first newline, then the
      lines of what follows it. Kept as a lemma of its own because unfolding
      `ReadLines` inside a larger proof is costly for the solver. */
  lemma ReadLinesAtNewline(s: string)
    requires NewlineIndex(s) < |s|
    ensures ReadLines(s) == [s[..NewlineIndex(s)]] + ReadLines(s[NewlineIndex(s) + 1..])
  {
  }

  /** Capturing a line ahead of others puts that line and a newline ahead of their capture. */
  lemma JoinedCons(head: string, lines: seq<string>)
    ensures Joined([head] + lines) == head + [Newline] + Joined(lines)
  {
    assert ([head] + lines)[1..] == lines;
  }

  /** Capturing the lines a reader produces gives back the text, with a
      newline added when the text did not already end in one. */
  lemma {:induction false} JoinedOfReadLines(s: string)
    ensures Joined(ReadLines(s)) == Terminated(s)
    decreases |s|
  {
    if |s| > 0 {
      var k := NewlineIndex(s);
      if k == |s| {
        ReadLinesNoNewline(s);
      } else {
        var head, rest := s[..k], s[k + 1..];
        ReadLinesAtNewline(s);
        JoinedCons(head, ReadLines(rest));
        JoinedOfReadLines(rest);
        assert s == head + [Newline] + rest;
        TerminatedAfterNewline(head, rest);
      }
    }
  }
}
