/**
 Text as newline-separated lines: splitting, joining, and how the two relate.
 Splitting always yields at least one line, as `String.split` does.

 Joining what was split gives the text again, and splitting what was joined gives the lines again
 if none of them has a newline in it. A text can be cut where a line starts, and lines can be put
 behind others, on either side of the split.
 */
module TextLines {

  predicate NewlineFree(line: string) {
    forall i | 0 <= i < |line| :: line[i] != '\n'
  }

  predicate AllNewlineFree(lines: seq<string>) {
    forall i | 0 <= i < |lines| :: NewlineFree(lines[i])
  }

  function Split(text: string): (lines: seq<string>)
    ensures |lines| >= 1
  {
    if text == "" then [""]
    else
      var rest := Split(text[1..]);
      if text[0] == '\n' then [""] + rest else [[text[0]] + rest[0]] + rest[1..]
  }

  function Join(lines: seq<string>): string {
    if lines == [] then ""
    else if |lines| == 1 then lines[0]
    else lines[0] + "\n" + Join(lines[1..])
  }

  /** The first `k` lines, each with its newline. */
  function Terminated(lines: seq<string>, k: nat): string
    requires k <= |lines|
  {
    if k == 0 then "" else lines[0] + "\n" + Terminated(lines[1..], k - 1)
  }

  lemma Associative<T>(a: seq<T>, b: seq<T>, c: seq<T>)
    ensures a + b + c == a + (b + c)
  {
  }

  lemma {:induction false} SplitIsNewlineFree(text: string)
    ensures AllNewlineFree(Split(text))
  {
    if text != "" {
      SplitIsNewlineFree(text[1..]);
    }
  }

  lemma {:induction false} JoinSplit(text: string)
    ensures Join(Split(text)) == text
  {
    if text != "" {
      JoinSplit(text[1..]);
      var rest := Split(text[1..]);
      if text[0] == '\n' {
        assert ([""] + rest)[1..] == rest;
      } else {
        var lines := [[text[0]] + rest[0]] + rest[1..];
        assert lines[1..] == rest[1..];
        assert text == [text[0]] + text[1..];
        assert Join(lines) == [text[0]] + Join(rest);
      }
    }
  }

  /** A newline-free line in front of a newline becomes the first piece of the split. */
  lemma {:induction false} SplitAfterLine(line: string, text: string)
    requires NewlineFree(line)
    ensures Split(line + "\n" + text) == [line] + Split(text)
  {
    var whole := line + "\n" + text;
    if line == "" {
      assert whole[1..] == text;
    } else {
      SplitAfterLine(line[1..], text);
      assert whole[1..] == line[1..] + "\n" + text;
      assert [line[0]] + line[1..] == line;
    }
  }

  lemma {:induction false} SplitSingleLine(line: string)
    requires NewlineFree(line)
    ensures Split(line) == [line]
  {
    if line != "" {
      SplitSingleLine(line[1..]);
      assert [line[0]] + line[1..] == line;
    }
  }

  lemma {:induction false} SplitTerminated(lines: seq<string>, k: nat, text: string)
    requires k <= |lines| && AllNewlineFree(lines)
    ensures Split(Terminated(lines, k) + text) == lines[..k] + Split(text)
  {
    if k == 0 {
      assert Terminated(lines, k) + text == text;
    } else {
      var rest := lines[1..];
      var tail := Terminated(rest, k - 1);
      Associative(lines[0] + "\n", tail, text);
      SplitAfterLine(lines[0], tail + text);
      SplitTerminated(rest, k - 1, text);
      Associative([lines[0]], rest[..k - 1], Split(text));
      assert lines[..k] == [lines[0]] + rest[..k - 1];
    }
  }

  lemma {:induction false} SplitJoin(lines: seq<string>)
    requires lines != [] && AllNewlineFree(lines)
    ensures Split(Join(lines)) == lines
  {
    if |lines| == 1 {
      SplitSingleLine(lines[0]);
    } else {
      SplitAfterLine(lines[0], Join(lines[1..]));
      SplitJoin(lines[1..]);
    }
  }

  lemma {:induction false} JoinCut(lines: seq<string>, k: nat)
    requires k < |lines|
    ensures Join(lines) == Terminated(lines, k) + Join(lines[k..])
  {
    if k == 0 {
      assert lines[0..] == lines;
    } else {
      JoinCut(lines[1..], k - 1);
      assert lines[1..][k - 1..] == lines[k..];
    }
  }

  lemma {:induction false} JoinAppend(front: seq<string>, back: seq<string>)
    requires front != [] && back != []
    ensures Join(front + back) == Join(front) + "\n" + Join(back)
  {
    if |front| == 1 {
      assert (front + back)[1..] == back;
    } else {
      JoinAppend(front[1..], back);
      assert (front + back)[1..] == front[1..] + back;
    }
  }
}
