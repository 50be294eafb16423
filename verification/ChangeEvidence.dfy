/**
 The canonical snapshot of a dirty work tree: status entries are sorted, every diff is
 rendered, and patches are included while a budget of UTF-8 bytes lasts. Paths are compared by
 code point, which is the byte order of their encoding.
 */
module ChangeEvidence {
  import opened EntryOrder
  import opened Options
  import opened TextLines
  import Utf8

  const MAX_CHANGE_FILES: nat := 200
  const MAX_CHANGE_PATCH_BYTES: nat := 200_000
  const U32_MAX: nat := 0xffff_ffff

  datatype DiffLine = DiffLine(kind: string, content: string)

  datatype Hunk = Hunk(header: string, lines: seq<DiffLine>)

  datatype Diff = Diff(isBinary: bool, tooLarge: bool, hunks: seq<Hunk>)

  datatype EvidenceFile = EvidenceFile(path: string, state: string, staged: bool, additions: nat, deletions: nat,
                                       binary: bool, tooLarge: bool, patch: Option<string>)

  /** What is fed to the snapshot hasher, in order. */
  datatype Token = Head(sha: Option<string>) | Text(text: string) | Flag(flag: bool) | Number(number: nat)

  datatype Commit = Commit(id: string, summary: string)

  datatype Evidence = Evidence(hashed: seq<Token>, headSha: Option<string>, recentMessages: seq<string>,
                               files: seq<EvidenceFile>)

  datatype EvidenceError = StatusUnavailable | BudgetExceeded | HistoryUnavailable | DiffUnavailable

  datatype Outcome = Collected(evidence: Evidence, budgetLeft: nat) | Rejected(error: EvidenceError)

  /**
   What the collector reads besides the status list. `history` and `diff` are `None` when
   reading them fails; a repository without a commit has the empty history.
   */
  datatype Worktree = Worktree(history: Option<seq<Commit>>, diff: (string, bool) -> Option<Diff>,
                               sensitive: string -> bool)

  // ---- The sort ----

  lemma {:induction false} SortSorts(entries: seq<Entry>)
    ensures Sorted(Sort(entries))
    ensures multiset(Sort(entries)) == multiset(entries)
    ensures |Sort(entries)| == |entries|
  {
    if entries != [] {
      var front, last := entries[..|entries| - 1], entries[|entries| - 1];
      SortSorts(front);
      InsertSorted(Sort(front), last);
      InsertKeepsElements(Sort(front), last);
      assert entries == front + [last];
    }
    assert |multiset(Sort(entries))| == |Sort(entries)|;
  }

  lemma {:induction false} SortIsStable(entries: seq<Entry>, key: Entry)
    ensures WithKey(Sort(entries), key) == WithKey(entries, key)
  {
    if entries != [] {
      var front, last := entries[..|entries| - 1], entries[|entries| - 1];
      SortSorts(front);
      SortIsStable(front, key);
      InsertIsStable(Sort(front), last, key);
      assert (Sort(front) + [last])[..|Sort(front)|] == Sort(front);
    }
  }

  // ---- Rendering one diff ----

  function Prefix(line: DiffLine): string {
    if line.kind == "add" then "+" else if line.kind == "del" then "-" else " "
  }

  function LinesText(lines: seq<DiffLine>): string {
    if lines == [] then ""
    else
      var last := lines[|lines| - 1];
      LinesText(lines[..|lines| - 1]) + Prefix(last) + last.content + "\n"
  }

  function PatchText(hunks: seq<Hunk>): string {
    if hunks == [] then ""
    else
      var last := hunks[|hunks| - 1];
      PatchText(hunks[..|hunks| - 1]) + last.header + "\n" + LinesText(last.lines)
  }

  function LinesTokens(lines: seq<DiffLine>): seq<Token> {
    if lines == [] then []
    else
      var last := lines[|lines| - 1];
      LinesTokens(lines[..|lines| - 1]) + [Text(last.kind), Text(last.content)]
  }

  function HunkTokens(hunks: seq<Hunk>): seq<Token> {
    if hunks == [] then []
    else
      var last := hunks[|hunks| - 1];
      HunkTokens(hunks[..|hunks| - 1]) + [Text(last.header)] + LinesTokens(last.lines)
  }

  function CountLines(lines: seq<DiffLine>, kind: string): nat {
    if lines == [] then 0
    else CountLines(lines[..|lines| - 1], kind) + (if lines[|lines| - 1].kind == kind then 1 else 0)
  }

  function CountKind(hunks: seq<Hunk>, kind: string): nat {
    if hunks == [] then 0
    else CountKind(hunks[..|hunks| - 1], kind) + CountLines(hunks[|hunks| - 1].lines, kind)
  }

  function AtMostU32(n: nat): nat {
    if n <= U32_MAX then n else U32_MAX
  }

  function SaturatingAdd(n: nat, m: nat): nat {
    AtMostU32(n + m)
  }

  lemma LineStep(lines: seq<DiffLine>, k: nat, patch0: string, patch: string, hashed0: seq<Token>, hashed: seq<Token>)
    requires k < |lines| && patch == patch0 + LinesText(lines[..k]) && hashed == hashed0 + LinesTokens(lines[..k])
    ensures patch + Prefix(lines[k]) + lines[k].content + "\n" == patch0 + LinesText(lines[..k + 1])
    ensures hashed + [Text(lines[k].kind), Text(lines[k].content)] == hashed0 + LinesTokens(lines[..k + 1])
  {
    assert lines[..k + 1][..k] == lines[..k];
  }

  lemma LineCountStep(lines: seq<DiffLine>, k: nat, kind: string, before: nat)
    requires k < |lines|
    ensures AtMostU32(before + CountLines(lines[..k + 1], kind))
         == if lines[k].kind == kind then SaturatingAdd(AtMostU32(before + CountLines(lines[..k], kind)), 1)
            else AtMostU32(before + CountLines(lines[..k], kind))
  {
    assert lines[..k + 1][..k] == lines[..k];
  }

  /** The counts and the prefix of one line. */
  method CountLine(line: DiffLine, added: nat, removed: nat) returns (added': nat, removed': nat, prefix: string)
    ensures added' == if line.kind == "add" then SaturatingAdd(added, 1) else added
    ensures removed' == if line.kind == "del" then SaturatingAdd(removed, 1) else removed
    ensures prefix == Prefix(line)
  {
    added', removed', prefix := added, removed, " ";
    if line.kind == "add" {
      added', prefix := SaturatingAdd(added, 1), "+";
    } else if line.kind == "del" {
      removed', prefix := SaturatingAdd(removed, 1), "-";
    }
  }

  /** The text, the tokens and the counts after the first `k` lines. */
  ghost predicate LinesRendered(lines: seq<DiffLine>, k: nat, patch0: string, patch: string, hashed0: seq<Token>,
                                hashed: seq<Token>)
    requires k <= |lines|
  {
    patch == patch0 + LinesText(lines[..k]) && hashed == hashed0 + LinesTokens(lines[..k])
  }

  ghost predicate LinesCounted(lines: seq<DiffLine>, k: nat, kind: string, before: nat, after: nat)
    requires k <= |lines|
  {
    after == AtMostU32(before + CountLines(lines[..k], kind))
  }

  method RenderLines(lines: seq<DiffLine>, patch0: string, hashed0: seq<Token>, added0: nat, removed0: nat)
    returns (patch: string, hashed: seq<Token>, added: nat, removed: nat)
    requires added0 <= U32_MAX && removed0 <= U32_MAX
    ensures patch == patch0 + LinesText(lines) && hashed == hashed0 + LinesTokens(lines)
    ensures added == AtMostU32(added0 + CountLines(lines, "add"))
    ensures removed == AtMostU32(removed0 + CountLines(lines, "del"))
  {
    patch, hashed, added, removed := patch0, hashed0, added0, removed0;
    for k := 0 to |lines|
      invariant LinesRendered(lines, k, patch0, patch, hashed0, hashed)
      invariant LinesCounted(lines, k, "add", added0, added) && LinesCounted(lines, k, "del", removed0, removed)
    {
      LineCountStep(lines, k, "add", added0);
      LineCountStep(lines, k, "del", removed0);
      LineStep(lines, k, patch0, patch, hashed0, hashed);
      var prefix: string;
      added, removed, prefix := CountLine(lines[k], added, removed);
      hashed := hashed + [Text(lines[k].kind), Text(lines[k].content)];
      patch := patch + prefix + lines[k].content + "\n";
    }
    assert lines[..|lines|] == lines;
  }

  ghost predicate HunksRendered(hunks: seq<Hunk>, k: nat, patch: string, hashed0: seq<Token>, hashed: seq<Token>)
    requires k <= |hunks|
  {
    patch == PatchText(hunks[..k]) && hashed == hashed0 + HunkTokens(hunks[..k])
  }

  ghost predicate HunksCounted(hunks: seq<Hunk>, k: nat, kind: string, count: nat)
    requires k <= |hunks|
  {
    count == AtMostU32(CountKind(hunks[..k], kind))
  }

  lemma HunkStep(hunks: seq<Hunk>, k: nat, patch: string, hashed0: seq<Token>, hashed: seq<Token>)
    requires k < |hunks| && HunksRendered(hunks, k, patch, hashed0, hashed)
    ensures HunksRendered(hunks, k + 1, patch + hunks[k].header + "\n" + LinesText(hunks[k].lines), hashed0,
                          hashed + [Text(hunks[k].header)] + LinesTokens(hunks[k].lines))
  {
    assert hunks[..k + 1][..k] == hunks[..k];
  }

  lemma CountStep(hunks: seq<Hunk>, k: nat, kind: string, count: nat)
    requires k < |hunks| && HunksCounted(hunks, k, kind, count)
    ensures HunksCounted(hunks, k + 1, kind, AtMostU32(count + CountLines(hunks[k].lines, kind)))
  {
    assert hunks[..k + 1][..k] == hunks[..k];
  }

  method RenderHunk(hunks: seq<Hunk>, k: nat, patch0: string, ghost before: seq<Token>, hashed0: seq<Token>, added0: nat,
                    removed0: nat)
    returns (patch: string, hashed: seq<Token>, added: nat, removed: nat)
    requires k < |hunks| && HunksRendered(hunks, k, patch0, before, hashed0)
    requires HunksCounted(hunks, k, "add", added0) && HunksCounted(hunks, k, "del", removed0)
    ensures HunksRendered(hunks, k + 1, patch, before, hashed)
    ensures HunksCounted(hunks, k + 1, "add", added) && HunksCounted(hunks, k + 1, "del", removed)
  {
    HunkStep(hunks, k, patch0, before, hashed0);
    CountStep(hunks, k, "add", added0);
    CountStep(hunks, k, "del", removed0);
    patch := patch0 + hunks[k].header + "\n";
    hashed := hashed0 + [Text(hunks[k].header)];
    patch, hashed, added, removed := RenderLines(hunks[k].lines, patch, hashed, added0, removed0);
  }

  method RenderDiff(diff: Diff, hashed0: seq<Token>)
    returns (patch: string, hashed: seq<Token>, added: nat, removed: nat)
    ensures patch == PatchText(diff.hunks) && hashed == hashed0 + HunkTokens(diff.hunks)
    ensures added == AtMostU32(CountKind(diff.hunks, "add"))
    ensures removed == AtMostU32(CountKind(diff.hunks, "del"))
  {
    var hunks := diff.hunks;
    patch, hashed, added, removed := "", hashed0, 0, 0;
    for k := 0 to |hunks|
      invariant HunksRendered(hunks, k, patch, hashed0, hashed)
      invariant HunksCounted(hunks, k, "add", added) && HunksCounted(hunks, k, "del", removed)
    {
      patch, hashed, added, removed := RenderHunk(hunks, k, patch, hashed0, hashed, added, removed);
    }
    assert hunks[..|hunks|] == hunks;
  }

  /** The lines of a patch: each header, and each line with its sign. */
  function PatchLines(hunks: seq<Hunk>): seq<string> {
    if hunks == [] then []
    else
      var last := hunks[|hunks| - 1];
      PatchLines(hunks[..|hunks| - 1]) + [last.header] + SignedLines(last.lines)
  }

  function SignedLines(lines: seq<DiffLine>): (signed: seq<string>)
    ensures |signed| == |lines|
    ensures forall k | 0 <= k < |lines| ::
      signed[k] == match lines[k].kind
                   case "add" => "+" + lines[k].content
                   case "del" => "-" + lines[k].content
                   case _ => " " + lines[k].content
  {
    seq(|lines|, k requires 0 <= k < |lines| => Prefix(lines[k]) + lines[k].content)
  }

  predicate OneLineEach(hunks: seq<Hunk>) {
    forall h | h in hunks :: NewlineFree(h.header) && forall l | l in h.lines :: NewlineFree(l.content)
  }

  lemma OneMoreLine(text: string, lines: seq<string>, line: string)
    requires Split(text) == lines + [""] && NewlineFree(line)
    ensures Split(text + line + "\n") == lines + [line] + [""]
  {
    JoinSplit(text);
    SplitIsNewlineFree(text);
    var all := lines + [line, ""];
    assert all == lines + [line] + [""];
    assert forall i | 0 <= i < |lines| :: lines[i] == (lines + [""])[i];
    assert Join([line, ""]) == line + "\n" + "" by {
      assert [line, ""][1..] == [""];
    }
    if lines == [] {
      assert text == "" && all == [line, ""];
      assert text + line + "\n" == line + "\n" + "";
    } else {
      JoinAppend(lines, [""]);
      JoinAppend(lines, [line, ""]);
      assert text + line + "\n" == Join(lines) + "\n" + (line + "\n" + "");
    }
    SplitJoin(all);
  }

  lemma {:induction false} LinesSplit(text: string, before: seq<string>, lines: seq<DiffLine>)
    requires Split(text) == before + [""] && forall l | l in lines :: NewlineFree(l.content)
    ensures Split(text + LinesText(lines)) == before + SignedLines(lines) + [""]
  {
    if lines == [] {
      assert text + LinesText(lines) == text && before + SignedLines(lines) == before;
    } else {
      var front, last := lines[..|lines| - 1], lines[|lines| - 1];
      LinesSplit(text, before, front);
      assert last in lines;
      OneMoreLine(text + LinesText(front), before + SignedLines(front), Prefix(last) + last.content);
      LinesTextGrows(text, lines);
      SignedLinesGrow(before, lines);
    }
  }

  lemma LinesTextGrows(text: string, lines: seq<DiffLine>)
    requires lines != []
    ensures var last := lines[|lines| - 1];
            text + LinesText(lines) == text + LinesText(lines[..|lines| - 1]) + (Prefix(last) + last.content) + "\n"
  {
    var last, sofar := lines[|lines| - 1], LinesText(lines[..|lines| - 1]);
    Associative(sofar, Prefix(last), last.content);
    Associative(sofar, Prefix(last) + last.content, "\n");
    Associative(text, sofar, Prefix(last) + last.content + "\n");
    Associative(text + sofar, Prefix(last) + last.content, "\n");
  }

  lemma SignedLinesGrow(before: seq<string>, lines: seq<DiffLine>)
    requires lines != []
    ensures var last := lines[|lines| - 1];
            before + SignedLines(lines) == before + SignedLines(lines[..|lines| - 1]) + [Prefix(last) + last.content]
  {
  }

  /** Split again, a patch is its lines: headers and signed contents, in order. */
  lemma {:induction false} PatchSplits(hunks: seq<Hunk>)
    requires OneLineEach(hunks)
    ensures Split(PatchText(hunks)) == PatchLines(hunks) + [""]
  {
    if hunks != [] {
      var front, last := hunks[..|hunks| - 1], hunks[|hunks| - 1];
      assert last in hunks;
      PatchSplits(front);
      OneMoreLine(PatchText(front), PatchLines(front), last.header);
      LinesSplit(PatchText(front) + last.header + "\n", PatchLines(front) + [last.header], last.lines);
    }
  }

  // ---- The collection ----

  predicate Reviewable(tree: Worktree, e: Entry, diff: Diff) {
    !diff.isBinary && !diff.tooLarge && !tree.sensitive(e.path)
  }

  /** The file record for an entry when `budget` bytes of patch are still allowed. */
  function FileFor(tree: Worktree, e: Entry, diff: Diff, budget: nat): EvidenceFile {
    var text := PatchText(diff.hunks);
    var reviewable := Reviewable(tree, e, diff);
    var included := reviewable && Utf8.Bytes(text) <= budget;
    EvidenceFile(e.path, e.state, e.staged,
                 AtMostU32(CountKind(diff.hunks, "add")), AtMostU32(CountKind(diff.hunks, "del")),
                 diff.isBinary, diff.tooLarge || (reviewable && !included),
                 if included then Some(text) else None)
  }

  function PatchBytes(file: EvidenceFile): nat {
    if file.patch.Some? then Utf8.Bytes(file.patch.value) else 0
  }

  function IncludedBytes(files: seq<EvidenceFile>): nat {
    if files == [] then 0 else IncludedBytes(files[..|files| - 1]) + PatchBytes(files[|files| - 1])
  }

  function EntryTokens(e: Entry, diff: Diff): seq<Token> {
    [Text(e.path), Text(e.state), Flag(e.staged), Flag(diff.isBinary), Flag(diff.tooLarge)] + HunkTokens(diff.hunks)
    + [Number(AtMostU32(CountKind(diff.hunks, "add"))), Number(AtMostU32(CountKind(diff.hunks, "del")))]
  }

  /** Every diff can be read. */
  predicate DiffsReadable(tree: Worktree, entries: seq<Entry>) {
    if entries == [] then true
    else
      var last := entries[|entries| - 1];
      DiffsReadable(tree, entries[..|entries| - 1]) && tree.diff(last.path, last.staged).Some?
  }

  function DiffOf(tree: Worktree, e: Entry): Diff
    requires tree.diff(e.path, e.staged).Some?
  {
    tree.diff(e.path, e.staged).value
  }

  function HeadSha(history: seq<Commit>): Option<string> {
    if history == [] then None else Some(history[0].id)
  }

  function AllTokens(tree: Worktree, head: Option<string>, entries: seq<Entry>): seq<Token>
    requires DiffsReadable(tree, entries)
  {
    if entries == [] then [Head(head)]
    else
      var front, last := entries[..|entries| - 1], entries[|entries| - 1];
      AllTokens(tree, head, front) + EntryTokens(last, DiffOf(tree, last))
  }

  /** The file records, each judged with the budget its predecessors left over. */
  function FilesOf(tree: Worktree, entries: seq<Entry>): (files: seq<EvidenceFile>)
    requires DiffsReadable(tree, entries)
    ensures |files| == |entries| && IncludedBytes(files) <= MAX_CHANGE_PATCH_BYTES
  {
    if entries == [] then []
    else
      var front, last := entries[..|entries| - 1], entries[|entries| - 1];
      var files := FilesOf(tree, front);
      var file := FileFor(tree, last, DiffOf(tree, last), MAX_CHANGE_PATCH_BYTES - IncludedBytes(files));
      assert (files + [file])[..|files|] == files;
      files + [file]
  }

  /** The outcome as a function of the status list. */
  function Collect(tree: Worktree, status: seq<Entry>): Outcome {
    if |status| > MAX_CHANGE_FILES then Rejected(BudgetExceeded)
    else if tree.history.None? then Rejected(HistoryUnavailable)
    else if !DiffsReadable(tree, Sort(status)) then Rejected(DiffUnavailable)
    else
      var head := HeadSha(tree.history.value);
      var files := FilesOf(tree, Sort(status));
      Collected(Evidence(AllTokens(tree, head, Sort(status)), head, Summaries(tree.history.value), files),
                MAX_CHANGE_PATCH_BYTES - IncludedBytes(files))
  }

  function Summaries(history: seq<Commit>): seq<string> {
    seq(|history|, i requires 0 <= i < |history| => history[i].summary)
  }

  /** What is collected after the first `k` sorted entries. */
  ghost predicate CollectedUpTo(tree: Worktree, head: Option<string>, entries: seq<Entry>, k: nat, hashed: seq<Token>,
                                files: seq<EvidenceFile>, budget: nat)
    requires k <= |entries|
  {
    && DiffsReadable(tree, entries[..k])
    && files == FilesOf(tree, entries[..k])
    && hashed == AllTokens(tree, head, entries[..k])
    && IncludedBytes(files) + budget == MAX_CHANGE_PATCH_BYTES
  }

  lemma CollectStep(tree: Worktree, head: Option<string>, entries: seq<Entry>, k: nat, hashed: seq<Token>,
                    files: seq<EvidenceFile>, budget: nat, file: EvidenceFile, tokens: seq<Token>, left: nat)
    requires k < |entries| && tree.diff(entries[k].path, entries[k].staged).Some?
    requires CollectedUpTo(tree, head, entries, k, hashed, files, budget)
    requires file == FileFor(tree, entries[k], DiffOf(tree, entries[k]), budget) && left + PatchBytes(file) == budget
    requires tokens == EntryTokens(entries[k], DiffOf(tree, entries[k]))
    ensures CollectedUpTo(tree, head, entries, k + 1, hashed + tokens, files + [file], left)
  {
    assert entries[..k + 1][..k] == entries[..k];
    OneMoreFile(files, file);
    assert budget == MAX_CHANGE_PATCH_BYTES - IncludedBytes(files);
  }

  lemma UnreadableEntry(tree: Worktree, entries: seq<Entry>, k: nat)
    requires k < |entries| && tree.diff(entries[k].path, entries[k].staged).None?
    ensures !DiffsReadable(tree, entries)
  {
    assert entries[..k + 1][..k] == entries[..k];
    UnreadablePrefix(tree, entries, k + 1);
  }

  lemma {:induction false} UnreadablePrefix(tree: Worktree, entries: seq<Entry>, k: nat)
    requires k <= |entries| && !DiffsReadable(tree, entries[..k])
    ensures !DiffsReadable(tree, entries)
    decreases |entries| - k
  {
    if k == |entries| {
      assert entries[..k] == entries;
    } else {
      assert entries[..k + 1][..k] == entries[..k];
      UnreadablePrefix(tree, entries, k + 1);
    }
  }

  method CollectFile(tree: Worktree, entry: Entry, diff: Diff, budget: nat)
    returns (file: EvidenceFile, tokens: seq<Token>, left: nat)
    requires tree.diff(entry.path, entry.staged) == Some(diff)
    ensures file == FileFor(tree, entry, diff, budget) && tokens == EntryTokens(entry, diff)
    ensures tokens == [Text(entry.path), Text(entry.state), Flag(entry.staged), Flag(diff.isBinary), Flag(diff.tooLarge)]
                      + HunkTokens(diff.hunks) + [Number(file.additions), Number(file.deletions)]
    ensures left + PatchBytes(file) == budget
    ensures file.path == entry.path && file.state == entry.state && file.staged == entry.staged && file.binary == diff.isBinary
    ensures file.additions == (if CountKind(diff.hunks, "add") < U32_MAX then CountKind(diff.hunks, "add") else U32_MAX)
    ensures file.deletions == (if CountKind(diff.hunks, "del") < U32_MAX then CountKind(diff.hunks, "del") else U32_MAX)
    ensures var text, open := PatchText(diff.hunks), !diff.isBinary && !diff.tooLarge && !tree.sensitive(entry.path);
            && file.patch == (if open && Utf8.Bytes(text) <= budget then Some(text) else None)
            && (file.tooLarge <==> diff.tooLarge || (open && Utf8.Bytes(text) > budget))
  {
    var head := [Text(entry.path), Text(entry.state), Flag(entry.staged), Flag(diff.isBinary), Flag(diff.tooLarge)];
    var patch, rendered, additions, deletions := RenderDiff(diff, head);
    tokens := rendered + [Number(additions), Number(deletions)];
    var reviewable := !diff.isBinary && !diff.tooLarge && !tree.sensitive(entry.path);
    left := budget;
    var includedPatch: Option<string> := None;
    if reviewable && Utf8.Bytes(patch) <= budget {
      left := budget - Utf8.Bytes(patch);
      includedPatch := Some(patch);
    }
    file := EvidenceFile(entry.path, entry.state, entry.staged, additions, deletions, diff.isBinary,
                         diff.tooLarge || (reviewable && includedPatch.None?), includedPatch);
  }

  /** The loop over the sorted entries; it stops at the first diff that cannot be read. */
  method CollectFiles(tree: Worktree, head: Option<string>, entries: seq<Entry>)
    returns (readable: bool, hashed: seq<Token>, files: seq<EvidenceFile>, budget: nat)
    ensures readable == DiffsReadable(tree, entries)
    ensures readable ==> hashed == AllTokens(tree, head, entries) && files == FilesOf(tree, entries)
    ensures readable ==> IncludedBytes(files) + budget == MAX_CHANGE_PATCH_BYTES
  {
    readable, hashed, files, budget := true, [Head(head)], [], MAX_CHANGE_PATCH_BYTES;
    for k := 0 to |entries|
      invariant readable && CollectedUpTo(tree, head, entries, k, hashed, files, budget)
    {
      var read := tree.diff(entries[k].path, entries[k].staged);
      if read.None? {
        UnreadableEntry(tree, entries, k);
        readable := false;
        return;
      }
      var file, tokens, left := CollectFile(tree, entries[k], read.value, budget);
      CollectStep(tree, head, entries, k, hashed, files, budget, file, tokens, left);
      files, hashed, budget := files + [file], hashed + tokens, left;
    }
    assert entries[..|entries|] == entries;
  }

  /** The outcome for a status that was refreshed, or could not be. */
  function CollectRefreshed(tree: Worktree, refreshed: Option<seq<Entry>>): Outcome {
    if refreshed.None? then Rejected(StatusUnavailable) else Collect(tree, refreshed.value)
  }

  lemma {:induction false} ReadableExactly(tree: Worktree, entries: seq<Entry>)
    ensures DiffsReadable(tree, entries) <==> forall e | e in entries :: tree.diff(e.path, e.staged) != None
  {
    if entries != [] {
      var front, last := entries[..|entries| - 1], entries[|entries| - 1];
      ReadableExactly(tree, front);
      assert entries == front + [last];
    }
  }

  /** Sorting does not change which diffs are read. */
  lemma UnreadableExactly(tree: Worktree, status: seq<Entry>)
    ensures !DiffsReadable(tree, Sort(status)) <==> exists e :: e in status && tree.diff(e.path, e.staged) == None
  {
    ReadableExactly(tree, Sort(status));
    SortSorts(status);
    if e :| e in status && tree.diff(e.path, e.staged) == None {
      SameMembers(status, Sort(status), e);
    }
    if e :| e in Sort(status) && tree.diff(e.path, e.staged) == None {
      SameMembers(Sort(status), status, e);
    }
  }

  method CollectChangeEvidence(tree: Worktree, refreshed: Option<seq<Entry>>) returns (outcome: Outcome)
    ensures outcome == CollectRefreshed(tree, refreshed)
    ensures outcome == Rejected(StatusUnavailable) <==> refreshed == None
    ensures outcome == Rejected(BudgetExceeded) <==> refreshed != None && |refreshed.value| > 200
    ensures outcome == Rejected(HistoryUnavailable) <==> refreshed != None && |refreshed.value| <= 200 && tree.history == None
    ensures outcome == Rejected(DiffUnavailable) <==>
      && refreshed != None && |refreshed.value| <= 200 && tree.history != None
      && exists e :: e in refreshed.value && tree.diff(e.path, e.staged) == None
    ensures outcome.Collected? ==>
      var evidence, history := outcome.evidence, tree.history.value;
      && (evidence.headSha == if history == [] then None else Some(history[0].id))
      && |evidence.recentMessages| == |history|
      && forall i | 0 <= i < |history| :: evidence.recentMessages[i] == history[i].summary
  {
    if refreshed.None? {
      return Rejected(StatusUnavailable);
    }
    if |refreshed.value| > MAX_CHANGE_FILES {
      return Rejected(BudgetExceeded);
    }
    var entries := Sort(refreshed.value);
    UnreadableExactly(tree, refreshed.value);
    if tree.history.None? {
      return Rejected(HistoryUnavailable);
    }
    var head := HeadSha(tree.history.value);
    var readable, hashed, files, budget := CollectFiles(tree, head, entries);
    if !readable {
      return Rejected(DiffUnavailable);
    }
    outcome := Collected(Evidence(hashed, head, Summaries(tree.history.value), files), budget);
  }

  lemma OneMoreFile(files: seq<EvidenceFile>, file: EvidenceFile)
    ensures IncludedBytes(files + [file]) == IncludedBytes(files) + PatchBytes(file)
  {
    assert (files + [file])[..|files|] == files;
  }

  // ---- What the collection promises ----

  /** Record `i` belongs to `e` and was made with the budget its predecessors left over. */
  ghost predicate RecordOf(tree: Worktree, e: Entry, files: seq<EvidenceFile>, i: nat) {
    && i < |files|
    && tree.diff(e.path, e.staged).Some?
    && IncludedBytes(files[..i]) <= MAX_CHANGE_PATCH_BYTES
    && files[i] == FileFor(tree, e, DiffOf(tree, e), MAX_CHANGE_PATCH_BYTES - IncludedBytes(files[..i]))
  }

  lemma LastRecord(tree: Worktree, entries: seq<Entry>)
    requires DiffsReadable(tree, entries) && entries != []
    ensures var k := |entries| - 1;
            RecordOf(tree, entries[k], FilesOf(tree, entries), k) && FilesOf(tree, entries)[..k] == FilesOf(tree, entries[..k])
  {
  }

  lemma RecordInPrefix(tree: Worktree, e: Entry, files: seq<EvidenceFile>, k: nat, i: nat)
    requires i < k <= |files| && RecordOf(tree, e, files[..k], i)
    ensures RecordOf(tree, e, files, i)
  {
    assert files[..k][..i] == files[..i] && files[..k][i] == files[i];
  }

  /** The record of entry `i` depends on its diff and on the patch bytes included before it. */
  lemma {:induction false} RecordAt(tree: Worktree, entries: seq<Entry>, i: nat)
    requires DiffsReadable(tree, entries) && i < |entries|
    ensures RecordOf(tree, entries[i], FilesOf(tree, entries), i)
  {
    var k := |entries| - 1;
    LastRecord(tree, entries);
    if i < k {
      RecordAt(tree, entries[..k], i);
      RecordInPrefix(tree, entries[i], FilesOf(tree, entries), k, i);
    }
  }

  /** What the record of `e` says when patches of `used` bytes come before it. */
  ghost predicate JudgedByBudget(tree: Worktree, e: Entry, diff: Diff, used: nat, file: EvidenceFile) {
    var text := PatchText(diff.hunks);
    if Reviewable(tree, e, diff) then
      if used + Utf8.Bytes(text) > MAX_CHANGE_PATCH_BYTES then file.patch.None? && file.tooLarge
      else file.patch == Some(text) && !file.tooLarge
    else
      file.patch.None? && file.tooLarge == diff.tooLarge
  }

  /**
   Included bytes and the budget left always make up the maximum, and a reviewable patch is
   left out exactly when it exceeds the budget left at its turn.
   */
  lemma OmittedOnlyForBudget(tree: Worktree, entries: seq<Entry>, i: nat)
    requires DiffsReadable(tree, entries) && i < |entries|
    ensures tree.diff(entries[i].path, entries[i].staged).Some?
    ensures JudgedByBudget(tree, entries[i], DiffOf(tree, entries[i]), IncludedBytes(FilesOf(tree, entries)[..i]),
                           FilesOf(tree, entries)[i])
  {
    RecordAt(tree, entries, i);
  }

  lemma FileNamesEntry(tree: Worktree, e: Entry, diff: Diff, budget: nat)
    ensures var file := FileFor(tree, e, diff, budget);
            Entry(file.path, file.state, file.staged) == e
  {
  }

  lemma RecordNamesEntry(tree: Worktree, entries: seq<Entry>, i: nat)
    requires DiffsReadable(tree, entries) && i < |entries|
    ensures var file := FilesOf(tree, entries)[i];
            Entry(file.path, file.state, file.staged) == entries[i]
  {
    RecordAt(tree, entries, i);
    var files := FilesOf(tree, entries);
    FileNamesEntry(tree, entries[i], DiffOf(tree, entries[i]), MAX_CHANGE_PATCH_BYTES - IncludedBytes(files[..i]));
  }

  // ---- Independence of the arrival order ----

  /** Every arrival order of the same entries yields the same outcome. */
  ghost predicate OrderIndependent(tree: Worktree, status: seq<Entry>) {
    forall other: seq<Entry> | multiset(other) == multiset(status) :: Collect(tree, other) == Collect(tree, status)
  }

  lemma SortOfDistinct(s: seq<Entry>, t: seq<Entry>)
    requires multiset(s) == multiset(t) && KeysIdentify(s)
    ensures Sort(s) == Sort(t) && |s| == |t|
  {
    assert |s| == |multiset(s)| == |multiset(t)| == |t|;
    SortSorts(s);
    SortSorts(t);
    forall x, y | x in Sort(s) && y in Sort(s) && SameKey(x, y)
      ensures x == y
    {
      SameMembers(Sort(s), s, x);
      SameMembers(Sort(s), s, y);
    }
    SortedIsUnique(Sort(s), Sort(t));
  }

  lemma {:induction false} ReadableMember(tree: Worktree, entries: seq<Entry>, e: Entry)
    requires DiffsReadable(tree, entries) && e in entries
    ensures tree.diff(e.path, e.staged).Some?
  {
    var k := |entries| - 1;
    if e != entries[k] {
      assert entries == entries[..k] + [entries[k]];
      ReadableMember(tree, entries[..k], e);
    }
  }

  lemma {:induction false} ReadableWithin(tree: Worktree, s: seq<Entry>, t: seq<Entry>, k: nat)
    requires multiset(s) == multiset(t) && DiffsReadable(tree, s) && k <= |t|
    ensures DiffsReadable(tree, t[..k])
  {
    if k > 0 {
      ReadableWithin(tree, s, t, k - 1);
      assert t[..k][..k - 1] == t[..k - 1];
      SameMembers(t, s, t[k - 1]);
      ReadableMember(tree, s, t[k - 1]);
    }
  }

  lemma ReadableInAnyOrder(tree: Worktree, s: seq<Entry>, t: seq<Entry>)
    requires multiset(s) == multiset(t) && DiffsReadable(tree, s)
    ensures DiffsReadable(tree, t)
  {
    ReadableWithin(tree, s, t, |t|);
    assert t[..|t|] == t;
  }

  /** Equal records come from equal entries. */
  lemma SameFilesSameEntries(tree: Worktree, s: seq<Entry>, t: seq<Entry>)
    requires DiffsReadable(tree, s) && DiffsReadable(tree, t) && FilesOf(tree, s) == FilesOf(tree, t)
    ensures s == t
  {
    assert |s| == |FilesOf(tree, s)| == |t|;
    forall i | 0 <= i < |s|
      ensures s[i] == t[i]
    {
      RecordNamesEntry(tree, s, i);
      RecordNamesEntry(tree, t, i);
    }
  }

  /** Two entries with one key keep the order they arrived in. */
  lemma ArrivalOrderShows(a: Entry, b: Entry, rest: seq<Entry>)
    requires SameKey(a, b) && a != b
    ensures Sort([a, b] + rest) != Sort([b, a] + rest)
  {
    var s, t := [a, b] + rest, [b, a] + rest;
    SortIsStable(s, a);
    SortIsStable(t, b);
    FirstWithKey(s, a);
    FirstWithKey(t, b);
    WithKeySame(Sort(s), a, b);
  }

  /** Two arrival orders of `s` that sort differently. */
  lemma TwoOrders(s: seq<Entry>, a: Entry, b: Entry) returns (one: seq<Entry>, two: seq<Entry>)
    requires a in s && b in s && a != b && SameKey(a, b)
    ensures multiset(one) == multiset(s) == multiset(two)
    ensures Sort(one) != Sort(two)
  {
    var most := Without(s, a);
    var rest := Without(most, b);
    one, two := [a, b] + rest, [b, a] + rest;
    PutBack(s, most, rest, a, b);
    SwapKeepsElements(a, b, rest);
    ArrivalOrderShows(a, b, rest);
  }

  lemma DifferentSortDifferentOutcome(tree: Worktree, s: seq<Entry>, t: seq<Entry>)
    requires multiset(s) == multiset(t) && |s| <= MAX_CHANGE_FILES && tree.history.Some? && DiffsReadable(tree, s)
    requires Sort(s) != Sort(t)
    ensures Collect(tree, s) != Collect(tree, t)
  {
    assert |s| == |multiset(s)| == |multiset(t)| == |t|;
    SortSorts(s);
    SortSorts(t);
    ReadableInAnyOrder(tree, s, Sort(s));
    ReadableInAnyOrder(tree, s, Sort(t));
    if Collect(tree, s) == Collect(tree, t) {
      SameFilesSameEntries(tree, Sort(s), Sort(t));
    }
  }

  lemma DependsOnOrder(tree: Worktree, status: seq<Entry>, s: seq<Entry>, t: seq<Entry>)
    requires multiset(s) == multiset(status) == multiset(t) && Sort(s) != Sort(t)
    requires |status| <= MAX_CHANGE_FILES && tree.history.Some? && DiffsReadable(tree, status)
    ensures !OrderIndependent(tree, status)
  {
    assert |s| == |multiset(s)| == |multiset(status)| == |status|;
    ReadableInAnyOrder(tree, status, s);
    DifferentSortDifferentOutcome(tree, s, t);
  }

  /** The collection is cut short before any entry order could matter. */
  predicate RejectedAnyway(tree: Worktree, status: seq<Entry>) {
    |status| > MAX_CHANGE_FILES || tree.history.None? || !DiffsReadable(tree, status)
  }

  lemma SameRejection(tree: Worktree, s: seq<Entry>, t: seq<Entry>)
    requires multiset(s) == multiset(t) && RejectedAnyway(tree, s)
    ensures Collect(tree, s) == Collect(tree, t)
  {
    assert |s| == |multiset(s)| == |multiset(t)| == |t|;
    SortSorts(s);
    SortSorts(t);
    if DiffsReadable(tree, Sort(s)) {
      ReadableInAnyOrder(tree, Sort(s), s);
    }
    if DiffsReadable(tree, Sort(t)) {
      ReadableInAnyOrder(tree, Sort(t), s);
    }
  }

  /**
   The outcome does not depend on the order in which status entries arrive exactly when no
   two different entries share path and staging side (or the collection is rejected anyway).
   */
  lemma OrderIndependence(tree: Worktree, status: seq<Entry>)
    ensures OrderIndependent(tree, status) <==> KeysIdentify(status) || RejectedAnyway(tree, status)
  {
    if RejectedAnyway(tree, status) {
      forall other: seq<Entry> | multiset(other) == multiset(status)
        ensures Collect(tree, other) == Collect(tree, status)
      {
        SameRejection(tree, status, other);
      }
    } else if KeysIdentify(status) {
      forall other: seq<Entry> | multiset(other) == multiset(status)
        ensures Collect(tree, other) == Collect(tree, status)
      {
        SortOfDistinct(status, other);
      }
    } else {
      var a, b :| a in status && b in status && SameKey(a, b) && a != b;
      var s, t := TwoOrders(status, a, b);
      DependsOnOrder(tree, status, s, t);
    }
  }
}
