/**
 Working-tree text with conflict markers: clean lines are kept and each conflict is
 replaced by its "ours" side. An optional base section between the two sides is skipped.

 The parser moves a cursor over the lines. Against it stands the rendering of clean lines and
 conflicts, each section free of the markers that would end it: what is rendered is parsed back.
 */
module ConflictMarkers {
  import opened Options
  import opened TextLines

  const START := "<<<<<<<"
  const BASE := "|||||||"
  const SEPARATOR := "======="
  const END := ">>>>>>>"

  predicate StartsWith(line: string, marker: string) {
    |marker| <= |line| && line[..|marker|] == marker
  }

  /** First line at or after `i` that starts with `marker`, or the number of lines. */
  function Find(lines: seq<string>, i: nat, marker: string): (j: nat)
    requires i <= |lines|
    ensures i <= j <= |lines|
    decreases |lines| - i
  {
    if i < |lines| && !StartsWith(lines[i], marker) then Find(lines, i + 1, marker) else i
  }

  /** First line at or after `i` that ends the "ours" section, or the number of lines. */
  function FindOursEnd(lines: seq<string>, i: nat): (j: nat)
    requires i <= |lines|
    ensures i <= j <= |lines|
    decreases |lines| - i
  {
    if i < |lines| && !StartsWith(lines[i], BASE) && !StartsWith(lines[i], SEPARATOR)
    then FindOursEnd(lines, i + 1) else i
  }

  function SkipOne(lines: seq<string>, i: nat, marker: string): (j: nat)
    requires i <= |lines|
    ensures i <= j <= |lines|
  {
    if i < |lines| && StartsWith(lines[i], marker) then i + 1 else i
  }

  /** Where parsing continues after a conflict whose "ours" section ends at `oursEnd`. */
  function AfterConflict(lines: seq<string>, oursEnd: nat): (next: nat)
    requires oursEnd <= |lines|
    ensures oursEnd <= next <= |lines|
  {
    var baseEnd :=
      if oursEnd < |lines| && StartsWith(lines[oursEnd], BASE) then Find(lines, oursEnd + 1, SEPARATOR) else oursEnd;
    var theirsStart := SkipOne(lines, baseEnd, SEPARATOR);
    SkipOne(lines, Find(lines, theirsStart, END), END)
  }

  /** The lines kept from line `i` on. */
  function Resolve(lines: seq<string>, i: nat): seq<string>
    requires i <= |lines|
    decreases |lines| - i
  {
    if i == |lines| then []
    else if StartsWith(lines[i], START) then
      var oursEnd := FindOursEnd(lines, i + 1);
      lines[i + 1..oursEnd] + Resolve(lines, AfterConflict(lines, oursEnd))
    else [lines[i]] + Resolve(lines, i + 1)
  }

  /** The cursor loop of the editor, run over the split text. */
  method InitialResultFromWorking(text: string) returns (result: string)
    ensures result == Join(Resolve(Split(text), 0))
  {
    var lines := Split(text);
    var out: seq<string> := [];
    var i := 0;
    while i < |lines|
      invariant i <= |lines|
      invariant out + Resolve(lines, i) == Resolve(lines, 0)
    {
      var kept, next := [lines[i]], i + 1;
      if StartsWith(lines[i], START) {
        kept, next := ConsumeConflict(lines, i);
      }
      Associative(out, kept, Resolve(lines, next));
      out := out + kept;
      i := next;
    }
    assert out + [] == out;
    result := Join(out);
  }

  /** The inner loops: collect "ours", then step over base, separator, "theirs" and end marker. */
  method ConsumeConflict(lines: seq<string>, begin: nat) returns (ours: seq<string>, i: nat)
    requires begin < |lines| && StartsWith(lines[begin], START)
    ensures ours == lines[begin + 1..FindOursEnd(lines, begin + 1)]
    ensures i == AfterConflict(lines, FindOursEnd(lines, begin + 1))
  {
    i := begin + 1;
    ours := [];
    while i < |lines| && !StartsWith(lines[i], BASE) && !StartsWith(lines[i], SEPARATOR)
      invariant begin < i <= |lines|
      invariant ours == lines[begin + 1..i]
      invariant FindOursEnd(lines, i) == FindOursEnd(lines, begin + 1)
    {
      ours := ours + [lines[i]];
      i := i + 1;
    }
    if i < |lines| && StartsWith(lines[i], BASE) {
      i := SkipTo(lines, i + 1, SEPARATOR);
    }
    if i < |lines| && StartsWith(lines[i], SEPARATOR) {
      i := i + 1;
    }
    i := SkipTo(lines, i, END);
    if i < |lines| && StartsWith(lines[i], END) {
      i := i + 1;
    }
  }

  method SkipTo(lines: seq<string>, begin: nat, marker: string) returns (i: nat)
    requires begin <= |lines|
    ensures i == Find(lines, begin, marker)
  {
    i := begin;
    while i < |lines| && !StartsWith(lines[i], marker)
      invariant begin <= i <= |lines|
      invariant Find(lines, i, marker) == Find(lines, begin, marker)
    {
      i := i + 1;
    }
  }

  // ---- Rendering, the inverse ----

  datatype Section = Section(note: string, lines: seq<string>)

  datatype Chunk =
    | Clean(line: string)
    | Conflict(ours: Section, base: Option<Section>, theirs: seq<string>, separatorNote: string, endNote: string)

  predicate FreeOf(lines: seq<string>, marker: string) {
    forall i | 0 <= i < |lines| :: !StartsWith(lines[i], marker)
  }

  /** No line of a section starts with a marker that would end that very section. */
  predicate WellFormed(chunk: Chunk) {
    match chunk
    case Clean(line) => !StartsWith(line, "<<<<<<<")
    case Conflict(ours, base, theirs, _, _) =>
      && FreeOf(ours.lines, BASE) && FreeOf(ours.lines, SEPARATOR)
      && (base.Some? ==> FreeOf(base.value.lines, SEPARATOR))
      && FreeOf(theirs, END)
  }

  predicate AllWellFormed(chunks: seq<Chunk>) {
    chunks == [] || (WellFormed(chunks[0]) && AllWellFormed(chunks[1..]))
  }

  function RenderBase(base: Option<Section>): seq<string> {
    match base
    case None => []
    case Some(section) => ["|||||||" + section.note] + section.lines
  }

  function RenderChunk(chunk: Chunk): seq<string> {
    match chunk
    case Clean(line) => [line]
    case Conflict(ours, base, theirs, separatorNote, endNote) =>
      ["<<<<<<<" + ours.note] + ours.lines + RenderBase(base)
      + ["=======" + separatorNote] + theirs + [">>>>>>>" + endNote]
  }

  function Render(chunks: seq<Chunk>): seq<string> {
    if chunks == [] then [] else RenderChunk(chunks[0]) + Render(chunks[1..])
  }

  function KeptLines(chunk: Chunk): seq<string> {
    match chunk
    case Clean(line) => [line]
    case Conflict(ours, _, _, _, _) => ours.lines
  }

  function Kept(chunks: seq<Chunk>): seq<string> {
    if chunks == [] then [] else KeptLines(chunks[0]) + Kept(chunks[1..])
  }

  lemma {:induction false} FindLands(lines: seq<string>, i: nat, j: nat, marker: string)
    requires i <= j < |lines|
    requires forall k | i <= k < j :: !StartsWith(lines[k], marker)
    requires StartsWith(lines[j], marker)
    ensures Find(lines, i, marker) == j
    decreases j - i
  {
    if i < j {
      FindLands(lines, i + 1, j, marker);
    }
  }

  lemma {:induction false} FindOursEndLands(lines: seq<string>, i: nat, j: nat)
    requires i <= j < |lines|
    requires forall k | i <= k < j :: !StartsWith(lines[k], BASE) && !StartsWith(lines[k], SEPARATOR)
    requires StartsWith(lines[j], BASE) || StartsWith(lines[j], SEPARATOR)
    ensures FindOursEnd(lines, i) == j
    decreases j - i
  {
    if i < j {
      FindOursEndLands(lines, i + 1, j);
    }
  }

  /** `lines` holds `part` from position `at` on. */
  ghost predicate Holds<T>(lines: seq<T>, at: nat, part: seq<T>) {
    at + |part| <= |lines| && lines[at..at + |part|] == part
  }

  lemma HoldsSplit<T>(lines: seq<T>, at: nat, front: seq<T>, back: seq<T>)
    requires Holds(lines, at, front + back)
    ensures Holds(lines, at, front) && Holds(lines, at + |front|, back)
  {
    var whole := lines[at..at + |front + back|];
    assert lines[at..at + |front|] == whole[..|front|];
    assert lines[at + |front|..at + |front| + |back|] == whole[|front|..];
  }

  lemma HoldsParts<T>(lines: seq<T>, at: nat, start: T, a: seq<T>, b: seq<T>, middle: T, c: seq<T>, end: T)
    requires Holds(lines, at, [start] + a + b + [middle] + c + [end])
    ensures
      var bAt := at + 1 + |a|;
      var middleAt := bAt + |b|;
      var endAt := middleAt + 1 + |c|;
      && endAt < |lines|
      && lines[at] == start && Holds(lines, at + 1, a) && Holds(lines, bAt, b)
      && lines[middleAt] == middle && Holds(lines, middleAt + 1, c) && lines[endAt] == end
  {
    HoldsSplit(lines, at, [start] + a + b + [middle] + c, [end]);
    HoldsSplit(lines, at, [start] + a + b + [middle], c);
    HoldsSplit(lines, at, [start] + a + b, [middle]);
    HoldsSplit(lines, at, [start] + a, b);
    HoldsSplit(lines, at, [start], a);
    HoldsAt(lines, at, [start], at);
    HoldsAt(lines, at + 1 + |a| + |b|, [middle], at + 1 + |a| + |b|);
    HoldsAt(lines, at + 2 + |a| + |b| + |c|, [end], at + 2 + |a| + |b| + |c|);
  }

  lemma HoldsAt<T>(lines: seq<T>, at: nat, part: seq<T>, k: nat)
    requires Holds(lines, at, part) && at <= k < at + |part|
    ensures lines[k] == part[k - at]
  {
    assert lines[k] == lines[at..at + |part|][k - at];
  }

  lemma MarkerLine(marker: string, note: string)
    ensures StartsWith(marker + note, marker)
  {
  }

  ghost predicate Layout(lines: seq<string>, i: nat, chunk: Chunk, oursEnd: nat, separatorAt: nat, endAt: nat)
    requires chunk.Conflict?
  {
    && oursEnd == i + 1 + |chunk.ours.lines|
    && separatorAt == oursEnd + |RenderBase(chunk.base)|
    && endAt == separatorAt + 1 + |chunk.theirs| < |lines|
    && StartsWith(lines[i], START)
    && Holds(lines, i + 1, chunk.ours.lines)
    && Holds(lines, oursEnd, RenderBase(chunk.base))
    && StartsWith(lines[separatorAt], SEPARATOR)
    && Holds(lines, separatorAt + 1, chunk.theirs)
    && StartsWith(lines[endAt], END)
  }

  lemma ConflictLayout(lines: seq<string>, i: nat, chunk: Chunk)
    returns (oursEnd: nat, separatorAt: nat, endAt: nat)
    requires chunk.Conflict? && Holds(lines, i, RenderChunk(chunk))
    ensures Layout(lines, i, chunk, oursEnd, separatorAt, endAt)
    ensures endAt + 1 == i + |RenderChunk(chunk)|
  {
    oursEnd := i + 1 + |chunk.ours.lines|;
    separatorAt := oursEnd + |RenderBase(chunk.base)|;
    endAt := separatorAt + 1 + |chunk.theirs|;
    HoldsParts(lines, i, START + chunk.ours.note, chunk.ours.lines, RenderBase(chunk.base),
               SEPARATOR + chunk.separatorNote, chunk.theirs, END + chunk.endNote);
    MarkerLine(START, chunk.ours.note);
    MarkerLine(SEPARATOR, chunk.separatorNote);
    MarkerLine(END, chunk.endNote);
  }

  /** One rendered conflict, wherever it stands, is parsed to its "ours" lines. */
  lemma ConflictParsed(lines: seq<string>, i: nat, chunk: Chunk, next: nat)
    requires chunk.Conflict? && WellFormed(chunk) && Holds(lines, i, RenderChunk(chunk))
    requires next == i + |RenderChunk(chunk)|
    ensures Resolve(lines, i) == chunk.ours.lines + Resolve(lines, next)
  {
    var oursEnd, separatorAt, endAt := ConflictLayout(lines, i, chunk);
    OursSection(lines, i, chunk, oursEnd, separatorAt);
    TheirsSection(lines, separatorAt, chunk.theirs, endAt);
    SectionsEnd(lines, oursEnd, separatorAt, endAt);
    UnfoldConflict(lines, i, oursEnd, next);
  }

  lemma SectionsEnd(lines: seq<string>, oursEnd: nat, separatorAt: nat, endAt: nat)
    requires oursEnd <= separatorAt < endAt < |lines|
    requires if StartsWith(lines[oursEnd], BASE) then Find(lines, oursEnd + 1, SEPARATOR) == separatorAt
             else oursEnd == separatorAt
    requires StartsWith(lines[separatorAt], SEPARATOR) && StartsWith(lines[endAt], END)
    requires Find(lines, separatorAt + 1, END) == endAt
    ensures AfterConflict(lines, oursEnd) == endAt + 1
  {
  }

  lemma UnfoldConflict(lines: seq<string>, i: nat, oursEnd: nat, next: nat)
    requires i < oursEnd <= next <= |lines| && StartsWith(lines[i], START)
    requires FindOursEnd(lines, i + 1) == oursEnd && AfterConflict(lines, oursEnd) == next
    ensures Resolve(lines, i) == lines[i + 1..oursEnd] + Resolve(lines, next)
  {
  }

  lemma TheirsSection(lines: seq<string>, separatorAt: nat, theirs: seq<string>, endAt: nat)
    requires FreeOf(theirs, END) && Holds(lines, separatorAt + 1, theirs)
    requires endAt == separatorAt + 1 + |theirs| < |lines| && StartsWith(lines[endAt], END)
    ensures Find(lines, separatorAt + 1, END) == endAt
  {
    forall k | separatorAt < k < endAt
      ensures !StartsWith(lines[k], END)
    {
      HoldsAt(lines, separatorAt + 1, theirs, k);
    }
    FindLands(lines, separatorAt + 1, endAt, END);
  }

  lemma OursSection(lines: seq<string>, i: nat, chunk: Chunk, oursEnd: nat, separatorAt: nat)
    requires chunk.Conflict? && WellFormed(chunk)
    requires oursEnd == i + 1 + |chunk.ours.lines| && separatorAt == oursEnd + |RenderBase(chunk.base)| < |lines|
    requires Holds(lines, i + 1, chunk.ours.lines) && Holds(lines, oursEnd, RenderBase(chunk.base))
    requires StartsWith(lines[separatorAt], SEPARATOR)
    ensures FindOursEnd(lines, i + 1) == oursEnd
    ensures if chunk.base.Some?
            then StartsWith(lines[oursEnd], BASE) && Find(lines, oursEnd + 1, SEPARATOR) == separatorAt
            else oursEnd == separatorAt && !StartsWith(lines[oursEnd], BASE)
  {
    forall k | i + 1 <= k < oursEnd
      ensures !StartsWith(lines[k], BASE) && !StartsWith(lines[k], SEPARATOR)
    {
      HoldsAt(lines, i + 1, chunk.ours.lines, k);
    }
    if chunk.base.Some? {
      var base := RenderBase(chunk.base);
      HoldsAt(lines, oursEnd, base, oursEnd);
      forall k | oursEnd < k < separatorAt
        ensures !StartsWith(lines[k], SEPARATOR)
      {
        HoldsAt(lines, oursEnd, base, k);
      }
      FindLands(lines, oursEnd + 1, separatorAt, SEPARATOR);
    } else {
      assert lines[oursEnd][..7][0] == '=';
    }
    FindOursEndLands(lines, i + 1, oursEnd);
  }

  /** The first rendered chunk, wherever it stands, is parsed to what is kept of it. */
  lemma ChunkParsed(lines: seq<string>, i: nat, chunk: Chunk)
    requires WellFormed(chunk) && Holds(lines, i, RenderChunk(chunk))
    ensures i < i + |RenderChunk(chunk)| <= |lines|
    ensures Resolve(lines, i) == KeptLines(chunk) + Resolve(lines, i + |RenderChunk(chunk)|)
  {
    if chunk.Conflict? {
      ConflictParsed(lines, i, chunk, i + |RenderChunk(chunk)|);
    } else {
      HoldsAt(lines, i, RenderChunk(chunk), i);
    }
  }

  lemma FirstHolds(lines: seq<string>, i: nat, chunk: Chunk, rest: seq<string>) returns (next: nat)
    requires WellFormed(chunk) && Holds(lines, i, RenderChunk(chunk) + rest) && i + |RenderChunk(chunk) + rest| == |lines|
    ensures i <= next <= |lines| && Holds(lines, next, rest) && next + |rest| == |lines|
    ensures Resolve(lines, i) == KeptLines(chunk) + Resolve(lines, next)
  {
    next := i + |RenderChunk(chunk)|;
    HoldsSplit(lines, i, RenderChunk(chunk), rest);
    ChunkParsed(lines, i, chunk);
  }

  /** The first chunk of rendered lines is parsed to what is kept of it, and the others follow at `next`. */
  lemma FirstChunk(lines: seq<string>, i: nat, chunks: seq<Chunk>) returns (next: nat)
    requires chunks != [] && WellFormed(chunks[0])
    requires Holds(lines, i, Render(chunks)) && i + |Render(chunks)| == |lines|
    ensures i <= next <= |lines| && Holds(lines, next, Render(chunks[1..])) && next + |Render(chunks[1..])| == |lines|
    ensures Resolve(lines, i) == KeptLines(chunks[0]) + Resolve(lines, next)
  {
    next := FirstHolds(lines, i, chunks[0], Render(chunks[1..]));
  }

  lemma ResolveNothing(lines: seq<string>, i: nat, chunks: seq<Chunk>)
    requires chunks == [] && i + |Render(chunks)| == |lines|
    ensures Resolve(lines, i) == Kept(chunks)
  {
  }

  lemma KeptFirst(chunks: seq<Chunk>, all: seq<string>, rest: seq<string>)
    requires chunks != [] && all == KeptLines(chunks[0]) + rest && rest == Kept(chunks[1..])
    ensures all == Kept(chunks)
  {
  }

  lemma {:induction false} ResolveRendered(lines: seq<string>, i: nat, chunks: seq<Chunk>)
    requires Holds(lines, i, Render(chunks)) && i + |Render(chunks)| == |lines|
    requires AllWellFormed(chunks)
    ensures Resolve(lines, i) == Kept(chunks)
    decreases |chunks|
  {
    if chunks == [] {
      ResolveNothing(lines, i, chunks);
    } else {
      var next := FirstChunk(lines, i, chunks);
      ResolveRendered(lines, next, chunks[1..]);
      KeptFirst(chunks, Resolve(lines, i), Resolve(lines, next));
    }
  }

  /**
   Any interleaving of clean lines and conflicts, with or without a base section, comes
   back as its clean lines and "ours" sides in order.
   */
  lemma RenderThenResolve(chunks: seq<Chunk>)
    requires AllNewlineFree(Render(chunks))
    requires AllWellFormed(chunks)
    ensures Join(Resolve(Split(Join(Render(chunks))), 0)) == Join(Kept(chunks))
  {
    if chunks == [] {
      NothingRendered();
    } else {
      RenderedIsSplit(chunks);
      ResolveRendered(Render(chunks), 0, chunks);
    }
  }

  lemma RenderedIsSplit(chunks: seq<Chunk>)
    requires chunks != [] && AllNewlineFree(Render(chunks))
    ensures Split(Join(Render(chunks))) == Render(chunks) && Holds(Render(chunks), 0, Render(chunks))
  {
    var lines := Render(chunks);
    assert RenderChunk(chunks[0]) != [];
    SplitJoin(lines);
    assert lines[0..0 + |lines|] == lines;
  }

  lemma NothingRendered()
    ensures Join(Resolve(Split(Join(Render([]))), 0)) == Join(Kept([]))
  {
    UnchangedIffNoConflict("");
  }

  // ---- Text without conflicts ----

  lemma FreeTail(lines: seq<string>, i: nat)
    requires i < |lines|
    ensures FreeOf(lines[i..], START) <==> !StartsWith(lines[i], START) && FreeOf(lines[i + 1..], START)
  {
    var tail, rest := lines[i..], lines[i + 1..];
    assert forall k | 0 <= k < |rest| :: rest[k] == tail[k + 1];
    assert tail[0] == lines[i];
    if !StartsWith(lines[i], START) && FreeOf(rest, START) {
      forall k | 0 <= k < |tail|
        ensures !StartsWith(tail[k], START)
      {
        if k > 0 {
          assert tail[k] == rest[k - 1];
        }
      }
    }
  }

  lemma {:induction false} ResolveFree(lines: seq<string>, i: nat)
    requires i <= |lines| && FreeOf(lines[i..], START)
    ensures Resolve(lines, i) == lines[i..]
    decreases |lines| - i
  {
    if i < |lines| {
      FreeTail(lines, i);
      ResolveFree(lines, i + 1);
    }
  }

  /** Every conflict costs lines. */
  lemma {:induction false} ResolveLength(lines: seq<string>, i: nat)
    requires i <= |lines|
    ensures |Resolve(lines, i)| <= |lines| - i
    ensures |Resolve(lines, i)| == |lines| - i ==> FreeOf(lines[i..], START)
    decreases |lines| - i
  {
    if i < |lines| {
      FreeTail(lines, i);
      if StartsWith(lines[i], START) {
        ResolveLength(lines, AfterConflict(lines, FindOursEnd(lines, i + 1)));
      } else {
        ResolveLength(lines, i + 1);
      }
    }
  }

  lemma {:induction false} ResolveKeepsNewlineFree(lines: seq<string>, i: nat)
    requires i <= |lines| && AllNewlineFree(lines)
    ensures AllNewlineFree(Resolve(lines, i))
    decreases |lines| - i
  {
    if i < |lines| {
      if StartsWith(lines[i], START) {
        ResolveKeepsNewlineFree(lines, AfterConflict(lines, FindOursEnd(lines, i + 1)));
      } else {
        ResolveKeepsNewlineFree(lines, i + 1);
      }
    }
  }

  /** The text comes back unchanged exactly when no line starts a conflict. */
  lemma UnchangedIffNoConflict(text: string)
    ensures Join(Resolve(Split(text), 0)) == text <==> FreeOf(Split(text), "<<<<<<<")
  {
    var lines := Split(text);
    var kept := Resolve(lines, 0);
    assert lines[0..] == lines;
    JoinSplit(text);
    SplitIsNewlineFree(text);
    ResolveLength(lines, 0);
    if FreeOf(lines, START) {
      ResolveFree(lines, 0);
    }
    ResolveKeepsNewlineFree(lines, 0);
    if !FreeOf(lines, START) {
      if kept != [] {
        SplitJoin(kept);
        assert |Split(Join(kept))| < |Split(text)|;
      }
    }
  }
}
