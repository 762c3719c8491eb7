/**
 * Line counting: the mojo's line processor (a counter of non-empty lines that
 * is reset whenever its result is taken) and the loop of the line reader that
 * feeds it one line at a time.
 */
module Lines {
  import opened Wrappers

  /** A Java string reference: `None` is `null`. */
  type JString = Option<string>

  /** The null-or-empty test the processor applies to each line. */
  predicate IsNullOrEmpty(s: JString) {
    s.None? || s.value == ""
  }

  /** Number of lines of `lines` that are not the empty string. */
  function NonEmptyCount(lines: seq<string>): nat {
    if lines == [] then 0
    else (if lines[0] == "" then 0 else 1) + NonEmptyCount(lines[1..])
  }

  /** Counting distributes over concatenation of line sequences. */
  lemma {:induction false} NonEmptyCountAppend(a: seq<string>, b: seq<string>)
    ensures NonEmptyCount(a + b) == NonEmptyCount(a) + NonEmptyCount(b)
  {
    if a == [] {
      assert a + b == b;
    } else {
      assert (a + b)[1..] == a[1..] + b;
      NonEmptyCountAppend(a[1..], b);
    }
  }

  /**
   * The count never exceeds the number of lines, is exactly that number when
   * no line is empty (so lines of blanks count), and is zero exactly when every
   * line is empty.
   */
  lemma {:induction false} NonEmptyCountBounds(lines: seq<string>)
    ensures NonEmptyCount(lines) <= |lines|
    ensures NonEmptyCount(lines) == |lines| <==> forall i :: 0 <= i < |lines| ==> lines[i] != ""
    ensures NonEmptyCount(lines) == 0 <==> forall i :: 0 <= i < |lines| ==> lines[i] == ""
  {
    if lines != [] {
      NonEmptyCountBounds(lines[1..]);
      forall i | 1 <= i < |lines|
        ensures lines[i] == lines[1..][i - 1]
      {
      }
      if lines[0] == "" {
        assert NonEmptyCount(lines) != |lines|;
      }
    }
  }

  /**
   * The mojo's line processor. `line` is its running count; every result it
   * hands out resets the count, so a fresh file starts again from zero.
   */
  class LineCounter {
    var line: nat

    constructor ()
      ensures line == 0
    {
      line := 0;
    }

    /** Counts the line unless it is null or empty; always asks for the next line. */
    method ProcessLine(fileLine: JString) returns (more: bool)
      modifies this
      ensures more
      ensures !IsNullOrEmpty(fileLine) ==> line == old(line) + 1
      ensures IsNullOrEmpty(fileLine) ==> line == old(line)
    {
      if !IsNullOrEmpty(fileLine) {
        line := line + 1;
      }
      more := true;
    }

    /** Hands out the running count and resets it. */
    method GetResult() returns (result: nat)
      modifies this
      ensures result == old(line)
      ensures line == 0
    {
      result := line;
      line := 0;
    }
  }

  /**
   * What reading one file yields: the lines the reader delivers, already split
   * at line terminators, and whether the stream then ends in an I/O error
   * rather than at end of file.
   */
  datatype Content = Content(lines: seq<string>, readError: bool)

  /**
   * The line reader's loop: offer every line to the processor while it asks
   * for more, then take its result. An I/O error after the delivered lines
   * aborts with `None` before the result is taken, so the processor keeps
   * its count.
   */
  method ReadLines(content: Content, processor: LineCounter) returns (r: Option<nat>)
    modifies processor
    ensures content.readError ==> r.None?
    ensures content.readError ==> processor.line == old(processor.line) + NonEmptyCount(content.lines)
    ensures !content.readError ==> r == Some(old(processor.line) + NonEmptyCount(content.lines))
    ensures !content.readError ==> processor.line == 0
  {
    var lines := content.lines;
    var i := 0;
    var more := true;
    while i < |lines| && more
      invariant 0 <= i <= |lines|
      invariant more
      invariant processor.line == old(processor.line) + NonEmptyCount(lines[..i])
    {
      NonEmptyCountAppend(lines[..i], [lines[i]]);
      assert lines[..i + 1] == lines[..i] + [lines[i]];
      more := processor.ProcessLine(Some(lines[i]));
      i := i + 1;
    }
    assert lines[..i] == lines;
    if content.readError {
      return None;
    }
    var n := processor.GetResult();
    r := Some(n);
  }
}
