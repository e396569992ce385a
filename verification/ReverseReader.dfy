// Reading a line-oriented log backwards in fixed-size chunks.
module ReverseReader {
  import opened Sequences

  newtype Byte = b: int | 0 <= b < 256

  type Line = seq<Byte>

  const NEWLINE: Byte := 10
  const DEFAULT_CHUNK: nat := 65536

  /** ASCII white space, which stripping a line removes. */
  predicate IsSpace(b: Byte) {
    b == 32 || 9 <= b <= 13
  }

  predicate IsBlank(line: Line) {
    forall b :: b in line ==> IsSpace(b)
  }

  /** Splits on newlines; n newlines give n + 1 pieces. */
  function Split(s: seq<Byte>): (parts: seq<Line>)
    ensures |parts| > 0
  {
    if s == [] then [[]]
    else
      var rest := Split(s[1..]);
      if s[0] == NEWLINE then [[]] + rest else [[s[0]] + rest[0]] + rest[1..]
  }

  function NonBlank(lines: seq<Line>): seq<Line> {
    if lines == [] then []
    else (if IsBlank(lines[0]) then [] else [lines[0]]) + NonBlank(lines[1..])
  }

  /** Some byte of the line is more than ASCII white space. */
  predicate HasText(line: Line) {
    exists i :: 0 <= i < |line| && line[i] != 32 && !(9 <= line[i] && line[i] <= 13)
  }

  /** Exactly the lines with text are kept; with `NonBlankAppend` this fixes every result. */
  lemma NonBlankKeepsText(line: Line)
    ensures NonBlank([line]) == if HasText(line) then [line] else []
    ensures NonBlank([]) == []
  {
    assert [line][1..] == [];
    assert IsBlank(line) <==> !HasText(line) by {
      if IsBlank(line) {
        forall i | 0 <= i < |line| ensures IsSpace(line[i]) {
          assert line[i] in line;
        }
      }
    }
  }

  /** The file's non-blank lines, in file order. */
  function Lines(content: seq<Byte>): seq<Line> {
    NonBlank(Split(content))
  }

  lemma {:induction false} SplitPiecesHaveNoNewline(s: seq<Byte>)
    ensures forall i :: 0 <= i < |Split(s)| ==> NEWLINE !in Split(s)[i]
  {
    if s != [] {
      SplitPiecesHaveNoNewline(s[1..]);
    }
  }

  lemma {:induction false} SplitWithoutNewline(s: seq<Byte>)
    requires NEWLINE !in s
    ensures Split(s) == [s]
  {
    if s != [] {
      SplitWithoutNewline(s[1..]);
      assert [s[0]] + s[1..] == s;
    }
  }

  lemma SplitCons(c: Byte, s: seq<Byte>)
    ensures Split([c] + s) ==
      if c == NEWLINE then [[]] + Split(s) else [[c] + Split(s)[0]] + Split(s)[1..]
  {
    assert ([c] + s)[1..] == s;
  }

  /** Only the first piece of the later part can grow when earlier bytes arrive. */
  lemma {:induction false} SplitAcross(a: seq<Byte>, b: seq<Byte>)
    ensures Split(a + b) == Split(a + Split(b)[0]) + Split(b)[1..]
  {
    hide Split;
    if a == [] {
      SplitPiecesHaveNoNewline(b);
      SplitWithoutNewline(Split(b)[0]);
      assert a + b == b && a + Split(b)[0] == Split(b)[0];
    } else {
      var c, rest := a[0], a[1..];
      SplitAcross(rest, b);
      assert a + b == [c] + (rest + b);
      assert a + Split(b)[0] == [c] + (rest + Split(b)[0]);
      SplitCons(c, rest + b);
      SplitCons(c, rest + Split(b)[0]);
    }
  }

  lemma {:induction false} NonBlankAppend(a: seq<Line>, b: seq<Line>)
    ensures NonBlank(a + b) == NonBlank(a) + NonBlank(b)
  {
    if a == [] {
      assert a + b == b;
    } else {
      assert (a + b)[1..] == a[1..] + b;
      NonBlankAppend(a[1..], b);
    }
  }

  /** Joining the pieces with newlines restores the bytes. */
  function Join(parts: seq<Line>): seq<Byte>
    requires |parts| > 0
  {
    if |parts| == 1 then parts[0] else parts[0] + [NEWLINE] + Join(parts[1..])
  }

  lemma {:induction false} SplitLosesNothing(s: seq<Byte>)
    ensures Join(Split(s)) == s
  {
    if s != [] {
      var rest := Split(s[1..]);
      SplitLosesNothing(s[1..]);
      if s[0] == NEWLINE {
        assert ([[]] + rest)[1..] == rest;
        assert Join(Split(s)) == [] + [NEWLINE] + Join(rest);
      } else if |rest| > 1 {
        assert ([[s[0]] + rest[0]] + rest[1..])[1..] == rest[1..];
        assert Join(Split(s)) == [s[0]] + rest[0] + [NEWLINE] + Join(rest[1..]);
      }
      assert s == [s[0]] + s[1..];
    }
  }

  lemma ReverseNonBlankCons(x: Line, rest: seq<Line>)
    ensures Reverse(NonBlank([x] + rest)) ==
      Reverse(NonBlank(rest)) + if IsBlank(x) then [] else [x]
  {
    assert ([x] + rest)[1..] == rest;
    if IsBlank(x) {
      assert NonBlank([x] + rest) == NonBlank(rest);
    } else {
      assert NonBlank([x] + rest) == [x] + NonBlank(rest);
      assert ([x] + NonBlank(rest))[1..] == NonBlank(rest);
    }
  }

  lemma ReverseNonBlankAppend(a: seq<Line>, b: seq<Line>)
    ensures Reverse(NonBlank(a + b)) == Reverse(NonBlank(b)) + Reverse(NonBlank(a))
  {
    NonBlankAppend(a, b);
    ReverseAppend(NonBlank(a), NonBlank(b));
  }

  /** Prepending a chunk to a split suffix splits only the unfinished first piece again. */
  lemma PrependChunk(chunk: seq<Byte>, suffix: seq<Byte>, buffer: Line, complete: seq<Line>)
    requires Split(suffix) == [buffer] + complete
    ensures Split(chunk + suffix) ==
      [Split(chunk + buffer)[0]] + (Split(chunk + buffer)[1..] + complete)
  {
    hide Split;
    SplitAcross(chunk, suffix);
    assert Split(suffix)[0] == buffer;
    assert Split(suffix)[1..] == complete;
    FirstApart(Split(chunk + buffer), complete);
  }

  lemma FirstApart(parts: seq<Line>, more: seq<Line>)
    requires parts != []
    ensures parts + more == [parts[0]] + (parts[1..] + more)
  {
  }

  /** The non-blank lines, last first, whatever the chunk size. */
  method ReadReverse(content: seq<Byte>, chunkSize: int) returns (lines: seq<Line>)
    ensures lines == Reverse(Lines(content))
  {
    hide NonBlank, Reverse, IsBlank;
    var size: nat := if chunkSize <= 0 then DEFAULT_CHUNK else chunkSize;
    var position := |content|;
    var buffer: seq<Byte> := [];
    lines := [];
    ghost var complete: seq<Line> := [];
    assert content[position..] == [];
    SplitWithoutNewline([]);
    EmptyReversed();
    while position > 0
      invariant 0 <= position <= |content|
      invariant Split(content[position..]) == [buffer] + complete
      invariant lines == Reverse(NonBlank(complete))
    {
      hide Split;
      var readSize := if size < position then size else position;
      ghost var suffix := content[position..];
      position := position - readSize;
      var chunk := content[position..position + readSize];
      assert content[position..] == chunk + suffix;
      PrependChunk(chunk, suffix, buffer, complete);
      var parts := Split(chunk + buffer);
      buffer := parts[0];
      lines := YieldReversed(lines, parts[1..]);
      ReverseNonBlankAppend(parts[1..], complete);
      complete := parts[1..] + complete;
    }
    assert content[0..] == content;
    ReverseNonBlankCons(buffer, complete);
    if !IsBlank(buffer) {
      lines := lines + [buffer];
    }
  }

  lemma EmptyReversed()
    ensures Reverse(NonBlank([])) == []
  {
  }

  /** Yields the non-blank pieces from the last to the first. */
  method YieldReversed(before: seq<Line>, parts: seq<Line>) returns (lines: seq<Line>)
    ensures lines == before + Reverse(NonBlank(parts))
  {
    hide NonBlank, Reverse, IsBlank;
    lines := before;
    var i := |parts|;
    assert parts[i..] == [];
    EmptyReversed();
    while i > 0
      invariant 0 <= i <= |parts|
      invariant lines == before + Reverse(NonBlank(parts[i..]))
    {
      i := i - 1;
      assert parts[i..] == [parts[i]] + parts[i + 1..];
      ReverseNonBlankCons(parts[i], parts[i + 1..]);
      if !IsBlank(parts[i]) {
        lines := lines + [parts[i]];
      }
    }
    assert parts[0..] == parts;
  }
}
