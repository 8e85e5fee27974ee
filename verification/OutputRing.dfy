/**
 * The last lines of Electron's output, kept in a ring
 * (launcher/linux/stella-launcher.c:542-548, 2096-2154). Output arrives as a
 * byte stream cut into reads at arbitrary points; lines are kept across cuts.
 */
module OutputRing {
  import opened Bytes
  import J = MiniJson

  const OUTPUT_LINES := 40
  const NEWLINE: Byte := 10

  type Text = seq<Byte>

  /** The lines of `s` that a line break ended. */
  function Complete(s: Text): seq<Text> {
    if s == [] then []
    else
      var before, last := s[..|s| - 1], s[|s| - 1];
      if last == NEWLINE then Complete(before) + [Unfinished(before)] else Complete(before)
  }

  /** What follows the last line break of `s`. */
  function Unfinished(s: Text): Text {
    if s == [] || s[|s| - 1] == NEWLINE then [] else Unfinished(s[..|s| - 1]) + [s[|s| - 1]]
  }

  function LastOf<T>(n: nat, s: seq<T>): seq<T> { if |s| <= n then s else s[|s| - n..] }

  /** The lines a reader of the whole stream would show. */
  function Shown(s: Text): seq<Text> {
    LastOf(OUTPUT_LINES, Complete(s) + if Unfinished(s) == [] then [] else [Unfinished(s)])
  }

  /** `xstrdup` copies a line up to its first NUL. */
  function Cut(lines: seq<Text>): (c: seq<Text>)
    ensures |c| == |lines| && forall i :: 0 <= i < |c| ==> c[i] == J.CString(lines[i])
  {
    seq(|lines|, i requires 0 <= i < |lines| => J.CString(lines[i]))
  }

  class Electron {
    const lines: array<Text>
    var lineCount: nat
    var lineStart: nat
    var partial: Text
    /** Every byte read so far. */
    ghost var stream: Text

    ghost predicate Shaped()
      reads this`lineCount, this`lineStart
    {
      lines.Length == OUTPUT_LINES && lineCount <= OUTPUT_LINES && lineStart < OUTPUT_LINES
    }

    ghost function Ring(): (r: seq<Text>)
      requires Shaped()
      reads this`lineCount, this`lineStart, lines
      ensures |r| == lineCount && forall i :: 0 <= i < lineCount ==> r[i] == lines[(lineStart + i) % OUTPUT_LINES]
    {
      var start := lineStart;
      seq(lineCount, i requires 0 <= i && lines.Length == OUTPUT_LINES reads lines => lines[(start + i) % OUTPUT_LINES])
    }

    ghost predicate Valid()
      reads this, lines
    {
      Shaped() && Ring() == LastOf(OUTPUT_LINES, Complete(stream)) && partial == Unfinished(stream)
    }

    constructor ()
      ensures Valid() && stream == [] && fresh(lines)
    {
      lines := new Text[OUTPUT_LINES](_ => []);
      lineCount, lineStart := 0, 0;
      partial, stream := [], [];
    }

    /** `output_push_line`: the oldest line makes way once the ring is full. */
    method PushLine(line: Text)
      requires Shaped()
      modifies this`lineCount, this`lineStart, lines
      ensures Shaped() && Ring() == LastOf(OUTPUT_LINES, old(Ring()) + [line])
    {
      ghost var was := Ring();
      var idx;
      if lineCount < OUTPUT_LINES {
        idx := (lineStart + lineCount) % OUTPUT_LINES;
        lineCount := lineCount + 1;
      } else {
        idx := lineStart;
        lineStart := (lineStart + 1) % OUTPUT_LINES;
      }
      lines[idx] := line;
      ghost var goal := LastOf(OUTPUT_LINES, was + [line]);
      assert |Ring()| == |goal|;
      forall i | 0 <= i < lineCount ensures Ring()[i] == goal[i] {
        RingSlots(old(lineStart), i, old(lineCount));
        RingSlots(old(lineStart), i + 1, old(lineCount));
        if old(lineCount) == OUTPUT_LINES && i + 1 < OUTPUT_LINES {
          assert goal[i] == was[i + 1];
        }
      }
    }

    /** `output_append`: one read. */
    method Append(data: Text)
      requires Valid()
      modifies this, lines
      ensures Valid() && stream == old(stream) + data
    {
      hide Ring, LastOf, Complete, Unfinished;
      var i, start := 0, 0;
      ghost var before := stream;
      assert before + data[..0] == before;
      while i < |data|
        invariant 0 <= start <= i <= |data|
        invariant Valid() && stream == before + data[..start]
        invariant forall k :: start <= k < i ==> data[k] != NEWLINE
      {
        if data[i] == NEWLINE {
          partial := partial + data[start..i];
          FinishLine(stream, data[start..i]);
          PushLine(partial);
          LastOfLast(OUTPUT_LINES, Complete(stream), [partial]);
          partial := [];
          stream := stream + data[start..i] + [NEWLINE];
          assert data[..i + 1] == data[..start] + data[start..i] + [NEWLINE];
          assert stream == before + data[..i + 1];
          start := i + 1;
        }
        i := i + 1;
      }
      if start < |data| {
        partial := partial + data[start..];
        ExtendLine(stream, data[start..]);
        stream := stream + data[start..];
      }
      assert before + data[..start] + data[start..] == before + data;
      if start == |data| { assert data[..start] == data; }
    }

    /** `output_last_lines` */
    method LastLines() returns (out: seq<Text>)
      requires Valid()
      ensures out == Cut(Shown(stream))
    {
      hide Complete, Unfinished, J.CString, LastOf;
      out := [];
      var total := lineCount + if partial != [] then 1 else 0;
      var skip := if total > OUTPUT_LINES then total - OUTPUT_LINES else 0;
      ghost var first := skip;
      var i := 0;
      while i < lineCount
        invariant 0 <= i <= lineCount && first <= lineCount
        invariant skip == if i < first then first - i else 0
        invariant |out| == if i < first then 0 else i - first
        invariant forall k :: 0 <= k < |out| ==> out[k] == J.CString(Ring()[first + k])
      {
        if skip > 0 {
          skip := skip - 1;
        } else {
          out := out + [J.CString(lines[(lineStart + i) % OUTPUT_LINES])];
        }
        i := i + 1;
      }
      if partial != [] { out := out + [J.CString(partial)]; }
      ghost var tail := if partial == [] then [] else [partial];
      LastOfLast(OUTPUT_LINES, Complete(stream), tail);
      Skipped(Ring(), tail, first);
      assert out == Cut(Ring()[first..] + tail);
    }
  }

  lemma {:induction false} Skipped<T>(ring: seq<T>, tail: seq<T>, first: nat)
    requires |ring| <= OUTPUT_LINES && |tail| <= 1 && first <= |ring|
    requires first == if |ring| + |tail| > OUTPUT_LINES then |ring| + |tail| - OUTPUT_LINES else 0
    ensures LastOf(OUTPUT_LINES, ring + tail) == ring[first..] + tail
  {
  }

  lemma {:induction false} RingSlots(start: nat, i: nat, count: nat)
    requires start < OUTPUT_LINES && count <= OUTPUT_LINES && i <= OUTPUT_LINES
    ensures i < OUTPUT_LINES ==> ((start + 1) % OUTPUT_LINES + i) % OUTPUT_LINES == (start + i + 1) % OUTPUT_LINES
    ensures (start + OUTPUT_LINES) % OUTPUT_LINES == start
    ensures 0 < i < OUTPUT_LINES ==> (start + i) % OUTPUT_LINES != start
    ensures i < count < OUTPUT_LINES ==> (start + i) % OUTPUT_LINES != (start + count) % OUTPUT_LINES
  {
  }

  lemma {:induction false} LastOfLast<T>(n: nat, a: seq<T>, b: seq<T>)
    ensures LastOf(n, LastOf(n, a) + b) == LastOf(n, a + b)
  {
  }

  lemma {:induction false} OneByteMore(s: Text, b: Byte)
    requires b != NEWLINE
    ensures Complete(s + [b]) == Complete(s) && Unfinished(s + [b]) == Unfinished(s) + [b]
  {
    assert (s + [b])[..|s|] == s;
  }

  lemma {:induction false} ExtendLine(s: Text, more: Text)
    requires forall k :: 0 <= k < |more| ==> more[k] != NEWLINE
    ensures Complete(s + more) == Complete(s) && Unfinished(s + more) == Unfinished(s) + more
    decreases |more|
  {
    hide Complete, Unfinished;
    if more == [] {
      assert s + more == s;
    } else {
      var n := |more| - 1;
      ExtendLine(s, more[..n]);
      OneByteMore(s + more[..n], more[n]);
      assert more == more[..n] + [more[n]];
      assert s + more == s + more[..n] + [more[n]];
      assert Unfinished(s) + more == Unfinished(s) + more[..n] + [more[n]];
    }
  }

  lemma {:induction false} FinishLine(s: Text, more: Text)
    requires forall k :: 0 <= k < |more| ==> more[k] != NEWLINE
    ensures Complete(s + more + [NEWLINE]) == Complete(s) + [Unfinished(s) + more]
    ensures Unfinished(s + more + [NEWLINE]) == []
  {
    ExtendLine(s, more);
    var t := s + more + [NEWLINE];
    assert t[..|t| - 1] == s + more;
  }

  // ---------------------------------------------------------------- what it means

  function Unlines(lines: seq<Text>): Text {
    if lines == [] then [] else Unlines(lines[..|lines| - 1]) + lines[|lines| - 1] + [NEWLINE]
  }

  predicate OneLine(t: Text) { forall k :: 0 <= k < |t| ==> t[k] != NEWLINE }

  lemma {:induction false} LinesUnbroken(s: Text)
    ensures OneLine(Unfinished(s)) && forall i :: 0 <= i < |Complete(s)| ==> OneLine(Complete(s)[i])
    decreases |s|
  {
    if s != [] { LinesUnbroken(s[..|s| - 1]); }
  }

  /** The lines are the stream: putting the breaks back gives every byte, and no line holds one. */
  lemma {:induction false} LinesRebuildStream(s: Text)
    ensures Unlines(Complete(s)) + Unfinished(s) == s
    ensures OneLine(Unfinished(s)) && forall i :: 0 <= i < |Complete(s)| ==> OneLine(Complete(s)[i])
    decreases |s|
  {
    hide OneLine;
    LinesUnbroken(s);
    if s != [] {
      var before, last := s[..|s| - 1], s[|s| - 1];
      LinesRebuildStream(before);
      assert before + [last] == s;
      if last == NEWLINE {
        assert Complete(s)[..|Complete(s)| - 1] == Complete(before);
        assert Unlines(Complete(s)) == before + [NEWLINE];
      } else {
        assert Unlines(Complete(before)) + (Unfinished(before) + [last]) == before + [last];
      }
    }
  }

  /** And they are the only such lines. */
  lemma {:induction false} LinesUnique(lines: seq<Text>, rest: Text)
    requires OneLine(rest) && forall i :: 0 <= i < |lines| ==> OneLine(lines[i])
    ensures Complete(Unlines(lines) + rest) == lines && Unfinished(Unlines(lines) + rest) == rest
    decreases |lines|
  {
    if lines == [] {
      ExtendLine([], rest);
    } else {
      hide Complete, Unfinished, OneLine;
      var n := |lines| - 1;
      var head, line := Unlines(lines[..n]), lines[n];
      NewlineFree(line);
      NewlineFree(rest);
      LinesUnique(lines[..n], []);
      assert head + [] == head;
      FinishLine(head, line);
      assert [] + line == line;
      assert lines[..n] + [line] == lines;
      ExtendLine(Unlines(lines), rest);
      assert [] + rest == rest;
    }
  }

  lemma {:induction false} NewlineFree(t: Text)
    ensures OneLine([])
    ensures OneLine(t) ==> forall k :: 0 <= k < |t| ==> t[k] != NEWLINE
  {
  }

  /** What is shown is the last lines as they were written exactly when none of them holds a NUL. */
  lemma {:induction false} ShownUncutIff(s: Text)
    ensures Cut(Shown(s)) == Shown(s) <==> forall i :: 0 <= i < |Shown(s)| ==> J.NulFree(Shown(s)[i])
  {
    hide Shown;
    var shown := Shown(s);
    if Cut(shown) == shown {
      forall i | 0 <= i < |shown| ensures J.NulFree(shown[i]) { CutWhole(shown[i]); assert Cut(shown)[i] == shown[i]; }
    } else {
      var i :| 0 <= i < |shown| && Cut(shown)[i] != shown[i];
      CutWhole(shown[i]);
    }
  }

  lemma {:induction false} CutWhole(t: Text)
    ensures J.CString(t) == t <==> J.NulFree(t)
    decreases |t|
  {
    if t != [] {
      CutWhole(t[1..]);
      assert [t[0]] + t[1..] == t;
      if t[0] != 0 {
        assert J.CString(t)[1..] == J.CString(t[1..]);
      }
    }
  }

  /** A program that writes a NUL loses the rest of that line from the report. */
  lemma {:induction false} NulCutsLine()
    ensures Shown([65, 0, 66]) == [[65, 0, 66]] && Cut(Shown([65, 0, 66])) == [[65]]
  {
    ExtendLine([], [65, 0, 66]);
    assert [] + [65, 0, 66] == [65, 0, 66];
    assert [65, 0, 66][1..] == [0, 66];
    assert J.CString([0, 66]) == [];
    assert J.CString([65, 0, 66]) == [65];
    assert Shown([65, 0, 66]) == [[65, 0, 66]];
  }
}
