/**
 The result pane of the merge editor: accepting one side of a region replaces a span
 of the document, given by character offsets, with the lines of that side.

 The offsets are those of whole lines, so the new text, split again, is the list of lines with one
 span replaced, but for two cases: an empty side, and a region that starts at the end.
 */
module LineSplice {
  import opened TextLines

  /** Half-open line intervals of one changed region in the three panes. */
  datatype Region = Region(rFrom: nat, rTo: nat, oFrom: nat, oTo: nat, tFrom: nat, tTo: nat)

  datatype Side = Ours | Theirs

  function Min(a: nat, b: nat): nat {
    if a < b then a else b
  }

  /** `Array.prototype.slice` on indices that are not negative. */
  function Slice(lines: seq<string>, from: nat, to: nat): seq<string> {
    var f, t := Min(from, |lines|), Min(to, |lines|);
    if f <= t then lines[f..t] else []
  }

  function Segment(r: Region, side: Side, ours: seq<string>, theirs: seq<string>): seq<string> {
    match side
    case Ours => Slice(ours, r.oFrom, r.oTo)
    case Theirs => Slice(theirs, r.tFrom, r.tTo)
  }

  /** Character offset at which line `k` starts; the end of the text when there is no such line. */
  function LineOffset(lines: seq<string>, k: nat): nat {
    if k < |lines| then |Terminated(lines, k)| else |Join(lines)|
  }

  /** What the edit does to the list of lines, in all cases. */
  function Spliced(lines: seq<string>, rFrom: nat, rTo: nat, segment: seq<string>): seq<string>
    requires lines != []
  {
    if rFrom < |lines| then
      lines[..rFrom] + (if segment == [] then [""] else segment) + Slice(lines, rTo, |lines|)
    else if segment == [] then lines
    else
      var last := |lines| - 1;
      lines[..last] + [lines[last] + segment[0]] + segment[1..]
  }

  /** The list splice the edit stands for. */
  function ListSplice(lines: seq<string>, rFrom: nat, rTo: nat, segment: seq<string>): seq<string> {
    Slice(lines, 0, rFrom) + segment + Slice(lines, rTo, |lines|)
  }

  /** The editor document being resolved. */
  class ResultDocument {
    var text: string

    constructor (initial: string)
      ensures text == initial
    {
      text := initial;
    }

    method Replace(from: nat, to: nat, insert: string)
      requires from <= to <= |text|
      modifies this
      ensures text == old(text[..from] + insert + text[to..])
    {
      text := text[..from] + insert + text[to..];
    }

    /** Walks over the lines and adds up their lengths, as a line lookup does. */
    method LineStart(lines: seq<string>, k: nat) returns (offset: nat)
      requires lines == Split(text)
      ensures offset == LineOffset(lines, k) <= |text|
    {
      JoinSplit(text);
      if k >= |lines| {
        return |text|;
      }
      offset := 0;
      var n := 0;
      while n < k
        invariant n <= k
        invariant offset == |Terminated(lines, n)|
      {
        TerminatedGrows(lines, n);
        offset := offset + |lines[n]| + 1;
        n := n + 1;
      }
      JoinCut(lines, k);
    }

    /** `regions` comes from the alignment model, whose intervals are never reversed. */
    method HandlePick(regions: seq<Region>, idx: nat, side: Side, oursText: string, theirsText: string)
      requires forall r <- regions :: r.rFrom <= r.rTo
      modifies this
      ensures idx >= |regions| ==> text == old(text)
      ensures idx < |regions| ==>
        Split(text) == Spliced(old(Split(text)), regions[idx].rFrom, regions[idx].rTo,
                               Segment(regions[idx], side, Split(oursText), Split(theirsText)))
      ensures side == Ours && idx < |regions| ==>
        var r, pane := regions[idx], Split(oursText);
        r.oFrom < r.oTo <= |pane| && r.rFrom < |old(Split(text))| ==>
          Split(text) == old(Split(text))[..r.rFrom] + pane[r.oFrom..r.oTo]
                         + (if r.rTo < |old(Split(text))| then old(Split(text))[r.rTo..] else [])
      ensures side == Theirs && idx < |regions| ==>
        var r, pane := regions[idx], Split(theirsText);
        r.tFrom < r.tTo <= |pane| && r.rFrom < |old(Split(text))| ==>
          Split(text) == old(Split(text))[..r.rFrom] + pane[r.tFrom..r.tTo]
                         + (if r.rTo < |old(Split(text))| then old(Split(text))[r.rTo..] else [])
      ensures idx < |regions| ==>
        var r := regions[idx];
        (if side == Ours then r.oFrom >= r.oTo else r.tFrom >= r.tTo) ==>
          Split(text) == if r.rFrom >= |old(Split(text))| then old(Split(text))
                         else old(Split(text))[..r.rFrom] + [""]
                              + (if r.rTo < |old(Split(text))| then old(Split(text))[r.rTo..] else [])
    {
      if idx >= |regions| {
        return;
      }
      var r := regions[idx];
      ghost var lines := Split(text);
      SliceIsNewlineFree(oursText, r.oFrom, r.oTo);
      SliceIsNewlineFree(theirsText, r.tFrom, r.tTo);
      if side == Ours {
        PickedExactly(lines, r.rFrom, r.rTo, Split(oursText), r.oFrom, r.oTo);
      } else {
        PickedExactly(lines, r.rFrom, r.rTo, Split(theirsText), r.tFrom, r.tTo);
      }
      Dispatch(r.rFrom, r.rTo, Segment(r, side, Split(oursText), Split(theirsText)));
    }

    /** The change of the document: the segment takes the place of the lines from `rFrom` to `rTo`. */
    method Dispatch(rFrom: nat, rTo: nat, segment: seq<string>)
      requires rFrom <= rTo && AllNewlineFree(segment)
      modifies this
      ensures Split(text) == Spliced(old(Split(text)), rFrom, rTo, segment)
    {
      var lines := Split(text);
      var from := LineStart(lines, rFrom);
      var to := LineStart(lines, rTo);
      var insert := Join(segment);
      if rTo < |lines| {
        insert := insert + "\n";
      } else {
        assert insert + "" == insert;
      }
      JoinSplit(text);
      SplitIsNewlineFree(text);
      OffsetsAreOrdered(lines, rFrom, rTo);
      assert from <= to;
      Replace(from, to, insert);
      EditedText(lines, rFrom, rTo, segment);
    }
  }

  /** What is put in for the lines `from` to `to` of a pane. */
  lemma PickedExactly(lines: seq<string>, rFrom: nat, rTo: nat, pane: seq<string>, from: nat, to: nat)
    requires lines != []
    ensures var now := Spliced(lines, rFrom, rTo, Slice(pane, from, to));
            var tail := if rTo < |lines| then lines[rTo..] else [];
            && (from < to <= |pane| && rFrom < |lines| ==> now == lines[..rFrom] + pane[from..to] + tail)
            && (from >= to ==> now == if rFrom >= |lines| then lines else lines[..rFrom] + [""] + tail)
  {
  }

  lemma {:induction false} TerminatedGrows(lines: seq<string>, k: nat)
    requires k < |lines|
    ensures Terminated(lines, k + 1) == Terminated(lines, k) + (lines[k] + "\n")
  {
    if k == 0 {
      assert Terminated(lines, 1) == (lines[0] + "\n") + Terminated(lines[1..], 0);
    } else {
      var rest := lines[1..];
      TerminatedGrows(rest, k - 1);
      assert rest[k - 1] == lines[k];
      assert Terminated(lines, k + 1) == lines[0] + "\n" + Terminated(rest, k);
      Associative(lines[0] + "\n", Terminated(rest, k - 1), lines[k] + "\n");
    }
  }

  lemma {:induction false} OffsetsAreOrdered(lines: seq<string>, k: nat, m: nat)
    requires k <= m
    ensures LineOffset(lines, k) <= LineOffset(lines, m)
    decreases m - k
  {
    if k < m && k < |lines| {
      JoinCut(lines, k);
      if k + 1 < |lines| {
        TerminatedGrows(lines, k);
        OffsetsAreOrdered(lines, k + 1, m);
      }
    }
  }

  lemma CutAtOffset(lines: seq<string>, k: nat)
    requires k < |lines|
    ensures LineOffset(lines, k) <= |Join(lines)|
    ensures Join(lines)[..LineOffset(lines, k)] == Terminated(lines, k)
    ensures Join(lines)[LineOffset(lines, k)..] == Join(lines[k..])
  {
    JoinCut(lines, k);
  }

  lemma EditInside(lines: seq<string>, rFrom: nat, rTo: nat, segment: seq<string>)
    requires AllNewlineFree(lines) && AllNewlineFree(segment) && segment != []
    requires rFrom <= rTo < |lines|
    ensures Split(Terminated(lines, rFrom) + (Join(segment) + "\n" + Join(lines[rTo..])))
         == lines[..rFrom] + segment + lines[rTo..]
  {
    JoinAppend(segment, lines[rTo..]);
    SplitTerminated(lines, rFrom, Join(segment + lines[rTo..]));
    SplitJoin(segment + lines[rTo..]);
    Associative(lines[..rFrom], segment, lines[rTo..]);
  }

  lemma EditToEnd(lines: seq<string>, rFrom: nat, segment: seq<string>)
    requires AllNewlineFree(lines) && AllNewlineFree(segment) && segment != []
    requires rFrom < |lines|
    ensures Split(Terminated(lines, rFrom) + Join(segment)) == lines[..rFrom] + segment
  {
    SplitTerminated(lines, rFrom, Join(segment));
    SplitJoin(segment);
  }

  lemma EditAtEnd(lines: seq<string>, segment: seq<string>)
    requires lines != [] && segment != [] && AllNewlineFree(lines) && AllNewlineFree(segment)
    ensures Split(Join(lines) + Join(segment))
         == lines[..|lines| - 1] + [lines[|lines| - 1] + segment[0]] + segment[1..]
  {
    var last := |lines| - 1;
    var glued := [lines[last] + segment[0]];
    var head := Terminated(lines, last);
    assert Join(lines) + Join(segment) == head + Join(glued + segment[1..]) by {
      JoinCut(lines, last);
      assert lines[last..] == [lines[last]];
      Associative(head, lines[last], Join(segment));
      GlueToFirst(lines[last], segment);
    }
    GluedIsNewlineFree(lines[last], segment);
    EditToEnd(lines, last, glued + segment[1..]);
    Associative(lines[..last], glued, segment[1..]);
  }

  lemma GluedIsNewlineFree(line: string, segment: seq<string>)
    requires NewlineFree(line) && segment != [] && AllNewlineFree(segment)
    ensures AllNewlineFree([line + segment[0]] + segment[1..])
  {
    var glued := [line + segment[0]] + segment[1..];
    forall i | 0 <= i < |glued|
      ensures NewlineFree(glued[i])
    {
      if i > 0 {
        assert glued[i] == segment[i];
      }
    }
  }

  lemma GlueToFirst(line: string, segment: seq<string>)
    requires segment != []
    ensures line + Join(segment) == Join([line + segment[0]] + segment[1..])
  {
    var tail := [line + segment[0]] + segment[1..];
    assert tail[1..] == segment[1..];
    if |segment| > 1 {
      Associative(line, segment[0] + "\n", Join(segment[1..]));
      Associative(line, segment[0], "\n");
    }
  }

  /** The text the editor is left with. */
  function Edited(lines: seq<string>, rFrom: nat, rTo: nat, segment: seq<string>): string
    requires LineOffset(lines, rFrom) <= LineOffset(lines, rTo) <= |Join(lines)|
  {
    Join(lines)[..LineOffset(lines, rFrom)] + (Join(segment) + if rTo < |lines| then "\n" else "")
    + Join(lines)[LineOffset(lines, rTo)..]
  }

  /** An empty segment is put in as one blank line. */
  function Shown(segment: seq<string>): seq<string> {
    if segment == [] then [""] else segment
  }

  lemma EditedInside(lines: seq<string>, rFrom: nat, rTo: nat, segment: seq<string>)
    requires AllNewlineFree(lines) && AllNewlineFree(segment) && rFrom <= rTo < |lines|
    requires LineOffset(lines, rFrom) <= LineOffset(lines, rTo) <= |Join(lines)|
    ensures Split(Edited(lines, rFrom, rTo, segment)) == lines[..rFrom] + Shown(segment) + lines[rTo..]
  {
    CutAtOffset(lines, rFrom);
    CutAtOffset(lines, rTo);
    Associative(Terminated(lines, rFrom), Join(segment) + "\n", Join(lines[rTo..]));
    EditInside(lines, rFrom, rTo, Shown(segment));
  }

  lemma EditedToEnd(lines: seq<string>, rFrom: nat, rTo: nat, segment: seq<string>)
    requires AllNewlineFree(lines) && AllNewlineFree(segment) && rFrom < |lines| <= rTo
    requires LineOffset(lines, rFrom) <= LineOffset(lines, rTo)
    ensures Split(Edited(lines, rFrom, rTo, segment)) == lines[..rFrom] + Shown(segment)
  {
    CutAtOffset(lines, rFrom);
    assert Edited(lines, rFrom, rTo, segment) == Terminated(lines, rFrom) + Join(Shown(segment));
    EditToEnd(lines, rFrom, Shown(segment));
  }

  lemma EditedAtEnd(lines: seq<string>, rFrom: nat, rTo: nat, segment: seq<string>)
    requires lines != [] && AllNewlineFree(lines) && AllNewlineFree(segment) && |lines| <= rFrom <= rTo
    ensures Split(Edited(lines, rFrom, rTo, segment)) == Spliced(lines, rFrom, rTo, segment)
  {
    assert Edited(lines, rFrom, rTo, segment) == Join(lines) + Join(segment);
    if segment == [] {
      assert Join(lines) + "" == Join(lines);
      SplitJoin(lines);
    } else {
      EditAtEnd(lines, segment);
    }
  }

  /** The text produced by the offset-based edit, split again, is the spliced list of lines. */
  lemma EditedText(lines: seq<string>, rFrom: nat, rTo: nat, segment: seq<string>)
    requires lines != [] && AllNewlineFree(lines) && AllNewlineFree(segment) && rFrom <= rTo
    requires LineOffset(lines, rFrom) <= LineOffset(lines, rTo) <= |Join(lines)|
    ensures Split(Edited(lines, rFrom, rTo, segment)) == Spliced(lines, rFrom, rTo, segment)
  {
    if rFrom >= |lines| {
      EditedAtEnd(lines, rFrom, rTo, segment);
    } else if rTo < |lines| {
      EditedInside(lines, rFrom, rTo, segment);
    } else {
      EditedToEnd(lines, rFrom, rTo, segment);
      assert lines[..rFrom] + Shown(segment) + [] == lines[..rFrom] + Shown(segment);
    }
  }

  lemma SliceIsNewlineFree(text: string, from: nat, to: nat)
    ensures AllNewlineFree(Slice(Split(text), from, to))
  {
    SplitIsNewlineFree(text);
  }

  /**
   The edit is the list splice exactly when the region starts inside the document and
   brings at least one line, or starts at the end and brings none. Otherwise it either
   leaves a blank line behind or glues the first new line to the last old one.
   */
  lemma SpliceIsExact(lines: seq<string>, rFrom: nat, rTo: nat, segment: seq<string>)
    requires lines != [] && rFrom <= rTo
    ensures Spliced(lines, rFrom, rTo, segment) == ListSplice(lines, rFrom, rTo, segment)
       <==> (rFrom < |lines| <==> segment != [])
  {
    var got, wanted := Spliced(lines, rFrom, rTo, segment), ListSplice(lines, rFrom, rTo, segment);
    if rFrom < |lines| {
      assert Slice(lines, 0, rFrom) == lines[..rFrom];
      if segment == [] {
        assert |got| == |wanted| + 1;
      }
    } else {
      assert Slice(lines, 0, rFrom) == lines && Slice(lines, rTo, |lines|) == [];
      assert wanted == lines + segment;
      if segment != [] {
        assert |got| + 1 == |wanted|;
      }
    }
  }
}
