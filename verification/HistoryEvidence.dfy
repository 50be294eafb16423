/**
 Bounded evidence for a history investigation: which commits are gathered, and which
 blame lines are sampled from the file in scope.
 */
module HistoryEvidence {
  import opened Options

  const MAX_HISTORY_COMMITS: nat := 24
  const BASE_HISTORY_COMMITS: nat := 16
  const MAX_BLAME_SAMPLES: nat := 24
  const SAMPLE_CHARACTERS: nat := 300

  function Take<T>(s: seq<T>, n: nat): seq<T> {
    if |s| <= n then s else s[..n]
  }

  // ---- Commits ----

  datatype Commit = Commit(id: string, shortId: string, summary: string)

  /** A commit found by a content search, and whether it touches the file in scope. */
  datatype Hit = Hit(commit: Commit, inScope: bool)

  function Ids(commits: seq<Commit>): set<string> {
    set c | c in commits :: c.id
  }

  /** Keeps the first commit of every id. */
  function Dedup(commits: seq<Commit>): seq<Commit> {
    if commits == [] then []
    else
      var front, last := Dedup(commits[..|commits| - 1]), commits[|commits| - 1];
      if last.id in Ids(front) then front else front + [last]
  }

  function ScopedHits(hits: seq<Hit>): seq<Commit> {
    if hits == [] then []
    else
      var last := hits[|hits| - 1];
      ScopedHits(hits[..|hits| - 1]) + (if last.inScope then [last.commit] else [])
  }

  /** Hits of all searches in term order; a failed search contributes nothing. */
  function AllHits(searches: seq<Option<seq<Hit>>>): seq<Commit> {
    if searches == [] then []
    else
      var last := searches[|searches| - 1];
      AllHits(searches[..|searches| - 1]) + (if last.Some? then ScopedHits(last.value) else [])
  }

  /** Recent commits first, then search hits, then the rest of the history. */
  function Candidates(base: seq<Commit>, searches: seq<Option<seq<Hit>>>): seq<Commit> {
    var recent := Take(base, BASE_HISTORY_COMMITS);
    recent + AllHits(searches) + base[|recent|..]
  }

  /** A search that did not fail found the commit, and the commit touches the file in scope. */
  ghost predicate HitInScope(searches: seq<Option<seq<Hit>>>, commit: Commit) {
    exists t | 0 <= t < |searches| :: searches[t].Some? && Hit(commit, true) in searches[t].value
  }

  /** Every gathered commit is of the history or was found in scope. */
  ghost predicate FoundIn(gathered: seq<Commit>, base: seq<Commit>, searches: seq<Option<seq<Hit>>>) {
    forall c | c in gathered :: c in base || HitInScope(searches, c)
  }

  /** No commit of the history, and none found in scope, is missing from the gathered ones. */
  ghost predicate CoversFound(gathered: seq<Commit>, base: seq<Commit>, searches: seq<Option<seq<Hit>>>) {
    forall c | c in base || HitInScope(searches, c) :: c.id in Ids(gathered)
  }

  lemma {:induction false} ScopedMembers(hits: seq<Hit>, c: Commit)
    ensures c in ScopedHits(hits) <==> Hit(c, true) in hits
  {
    if hits != [] {
      var front, last := hits[..|hits| - 1], hits[|hits| - 1];
      ScopedMembers(front, c);
      assert hits == front + [last];
    }
  }

  lemma {:induction false} AllHitsMembers(searches: seq<Option<seq<Hit>>>, c: Commit)
    ensures c in AllHits(searches) <==> HitInScope(searches, c)
  {
    if searches != [] {
      var front, last := searches[..|searches| - 1], searches[|searches| - 1];
      AllHitsMembers(front, c);
      if last.Some? {
        ScopedMembers(last.value, c);
      }
      assert forall t | 0 <= t < |front| :: front[t] == searches[t];
    }
  }

  /** The commits kept of the candidates met so far, and the ids kept. */
  ghost predicate KeptOf(met: seq<Commit>, commits: seq<Commit>, seen: set<string>) {
    commits == Take(Dedup(met), MAX_HISTORY_COMMITS) && seen == Ids(commits)
  }

  method AddUniqueCommit(commits: seq<Commit>, seen: set<string>, commit: Commit, ghost met: seq<Commit>)
    returns (commits': seq<Commit>, seen': set<string>)
    requires KeptOf(met, commits, seen)
    ensures KeptOf(met + [commit], commits', seen')
  {
    commits', seen' := commits, seen;
    assert (met + [commit])[..|met|] == met;
    if |commits| < MAX_HISTORY_COMMITS && commit.id !in seen {
      seen' := seen + {commit.id};
      commits' := commits + [commit];
    }
  }

  /**
   The gathering loops. `cancelled` holds what the cancellation flag reads at the start
   and before each search; the result is `None` when it was seen set.
   */
  method GatherCommits(base: seq<Commit>, searches: seq<Option<seq<Hit>>>, cancelled: seq<bool>)
    returns (result: Option<seq<Commit>>)
    requires |cancelled| == |searches| + 1
    ensures result.None? <==> true in cancelled
    ensures result.Some? ==> result.value == Take(Dedup(Candidates(base, searches)), MAX_HISTORY_COMMITS)
    ensures result.Some? ==> |result.value| <= 24 && FoundIn(result.value, base, searches)
    ensures result.Some? && |result.value| < 24 ==> CoversFound(result.value, base, searches)
  {
    GatheredCommits(base, searches);
    if cancelled[0] {
      return None;
    }
    var recent := Take(base, BASE_HISTORY_COMMITS);
    var commits, seen := AddCommits([], {}, recent, []);
    ghost var met := recent;
    assert [] + recent == recent && recent + AllHits([]) == recent;
    for t := 0 to |searches|
      invariant forall k | 0 <= k <= t :: !cancelled[k]
      invariant met == recent + AllHits(searches[..t])
      invariant KeptOf(met, commits, seen)
    {
      if cancelled[t + 1] {
        return None;
      }
      AllHitsStep(recent, searches, t);
      if searches[t].Some? {
        commits, seen := AddHits(commits, seen, searches[t].value, met);
        met := met + ScopedHits(searches[t].value);
      }
    }
    assert searches[..|searches|] == searches;
    commits, seen := AddCommits(commits, seen, base[|recent|..], met);
    result := Some(commits);
  }

  lemma AllHitsStep(recent: seq<Commit>, searches: seq<Option<seq<Hit>>>, t: nat)
    requires t < |searches|
    ensures searches[t].Some? ==>
      recent + AllHits(searches[..t + 1]) == recent + AllHits(searches[..t]) + ScopedHits(searches[t].value)
    ensures searches[t].None? ==> recent + AllHits(searches[..t + 1]) == recent + AllHits(searches[..t])
  {
    assert searches[..t + 1][..t] == searches[..t];
  }

  method AddCommits(commits: seq<Commit>, seen: set<string>, more: seq<Commit>, ghost met: seq<Commit>)
    returns (commits': seq<Commit>, seen': set<string>)
    requires KeptOf(met, commits, seen)
    ensures KeptOf(met + more, commits', seen')
  {
    commits', seen' := commits, seen;
    ghost var sofar := met;
    for k := 0 to |more|
      invariant sofar == met + more[..k]
      invariant KeptOf(sofar, commits', seen')
    {
      commits', seen' := AddUniqueCommit(commits', seen', more[k], sofar);
      sofar := sofar + [more[k]];
    }
    assert more[..|more|] == more;
  }

  lemma ScopedStep(met: seq<Commit>, hits: seq<Hit>, k: nat)
    requires k < |hits|
    ensures hits[k].inScope ==>
      met + ScopedHits(hits[..k + 1]) == met + ScopedHits(hits[..k]) + [hits[k].commit]
    ensures !hits[k].inScope ==> met + ScopedHits(hits[..k + 1]) == met + ScopedHits(hits[..k])
  {
    assert hits[..k + 1][..k] == hits[..k];
  }

  method AddHits(commits: seq<Commit>, seen: set<string>, hits: seq<Hit>, ghost met: seq<Commit>)
    returns (commits': seq<Commit>, seen': set<string>)
    requires KeptOf(met, commits, seen)
    ensures KeptOf(met + ScopedHits(hits), commits', seen')
  {
    commits', seen' := commits, seen;
    ghost var sofar := met;
    for k := 0 to |hits|
      invariant sofar == met + ScopedHits(hits[..k])
      invariant KeptOf(sofar, commits', seen')
    {
      ScopedStep(met, hits, k);
      if hits[k].inScope {
        commits', seen' := AddUniqueCommit(commits', seen', hits[k].commit, sofar);
        sofar := sofar + [hits[k].commit];
      }
    }
    assert hits[..|hits|] == hits;
  }

  ghost predicate DistinctCommits(commits: seq<Commit>) {
    forall i, j | 0 <= i < j < |commits| :: commits[i].id != commits[j].id
  }

  lemma {:induction false} DedupKeepsIds(commits: seq<Commit>)
    ensures DistinctCommits(Dedup(commits))
    ensures Ids(Dedup(commits)) == Ids(commits)
    ensures |Dedup(commits)| <= |commits|
  {
    if commits != [] {
      var front, last := commits[..|commits| - 1], commits[|commits| - 1];
      DedupKeepsIds(front);
      assert commits == front + [last];
      var kept := Dedup(front);
      if last.id !in Ids(kept) {
        assert forall i | 0 <= i < |kept| :: kept[i] in kept && kept[i].id != last.id;
      }
      assert Ids(commits) == Ids(front) + {last.id};
    }
  }

  lemma {:induction false} DedupPrefix(front: seq<Commit>, back: seq<Commit>)
    ensures Dedup(front) <= Dedup(front + back)
  {
    if back == [] {
      assert front + back == front;
    } else {
      DedupPrefix(front, back[..|back| - 1]);
      assert (front + back)[..|front + back| - 1] == front + back[..|back| - 1];
    }
  }

  /** Search hits never crowd out or reorder the most recent commits, and no commit is listed twice. */
  lemma GatheredCommits(base: seq<Commit>, searches: seq<Option<seq<Hit>>>)
    ensures
      var gathered := Take(Dedup(Candidates(base, searches)), MAX_HISTORY_COMMITS);
      && |gathered| <= MAX_HISTORY_COMMITS
      && DistinctCommits(gathered)
      && Dedup(Take(base, BASE_HISTORY_COMMITS)) <= gathered
      && FoundIn(gathered, base, searches)
      && (|gathered| < MAX_HISTORY_COMMITS ==> CoversFound(gathered, base, searches))
  {
    var recent := Take(base, BASE_HISTORY_COMMITS);
    var rest := base[|recent|..];
    var hits := AllHits(searches);
    DedupKeepsIds(Candidates(base, searches));
    DedupKeepsIds(recent);
    assert Candidates(base, searches) == recent + (hits + rest);
    DedupPrefix(recent, hits + rest);
    assert base == recent + rest;
    assert forall c :: c in Candidates(base, searches) <==> c in base || c in hits;
    forall c
      ensures c in hits <==> HitInScope(searches, c)
    {
      AllHitsMembers(searches, c);
    }
    DedupIsPart(Candidates(base, searches));
  }

  lemma {:induction false} DedupIsPart(commits: seq<Commit>)
    ensures forall c | c in Dedup(commits) :: c in commits
  {
    if commits != [] {
      DedupIsPart(commits[..|commits| - 1]);
    }
  }

  // ---- Blame ----

  datatype BlameLine = BlameLine(lineNo: nat, commitId: string, author: string, content: string)

  datatype Sample = Sample(lineNo: nat, commitId: string, author: string, content: string)

  function ToSample(line: BlameLine): Sample {
    Sample(line.lineNo, line.commitId, line.author, Take(line.content, SAMPLE_CHARACTERS))
  }

  /** The sample names its line, commit and author, and quotes the first 300 characters. */
  predicate SampledFrom(s: Sample, line: BlameLine) {
    && s.lineNo == line.lineNo && s.commitId == line.commitId && s.author == line.author
    && s.content == if |line.content| <= 300 then line.content else line.content[..300]
  }

  function ToSamples(lines: seq<BlameLine>): (samples: seq<Sample>)
    ensures |samples| == |lines|
    ensures forall i | 0 <= i < |lines| :: samples[i] == ToSample(lines[i])
  {
    seq(|lines|, i requires 0 <= i < |lines| => ToSample(lines[i]))
  }

  predicate OccursAt(text: string, part: string, i: nat) {
    i + |part| <= |text| && text[i..i + |part|] == part
  }

  predicate Contains(text: string, part: string) {
    exists i | 0 <= i <= |text| :: OccursAt(text, part, i)
  }

  lemma ContainsExactly(text: string, part: string)
    ensures Contains(text, part) <==> exists before, after :: text == before + part + after
  {
    if Contains(text, part) {
      var i :| 0 <= i <= |text| && OccursAt(text, part, i);
      assert text == text[..i] + part + text[i + |part|..];
    }
    if before, after :| text == before + part + after {
      assert OccursAt(text, part, |before|);
    }
  }

  /** `lower` is the language's own lower-casing of text. */
  predicate Matches(line: BlameLine, terms: seq<string>, lower: string -> string) {
    exists k | 0 <= k < |terms| :: Contains(lower(line.content), lower(terms[k]))
  }

  function CommitIds(lines: seq<BlameLine>): set<string> {
    set l | l in lines :: l.commitId
  }

  function LineNumbers(lines: seq<BlameLine>): set<nat> {
    set l | l in lines :: l.lineNo
  }

  ghost predicate DistinctLines(lines: seq<BlameLine>) {
    forall i, j | 0 <= i < j < |lines| :: lines[i].lineNo != lines[j].lineNo
  }

  /** The lines of allowed commits that mention a search term, in file order. */
  function Mentioning(lines: seq<BlameLine>, terms: seq<string>, allowed: set<string>, lower: string -> string): seq<BlameLine> {
    if lines == [] then []
    else
      var front, last := Mentioning(lines[..|lines| - 1], terms, allowed, lower), lines[|lines| - 1];
      if last.commitId in allowed && Matches(last, terms, lower) then front + [last] else front
  }

  /** For every allowed commit outside `known`, its first line, in file order. */
  function Introducing(lines: seq<BlameLine>, known: set<string>, allowed: set<string>): seq<BlameLine> {
    if lines == [] then []
    else
      var front, last := Introducing(lines[..|lines| - 1], known, allowed), lines[|lines| - 1];
      if last.commitId in allowed && last.commitId !in known + CommitIds(front) then front + [last] else front
  }

  /** All lines worth sampling, the most relevant ones first. */
  function Relevant(lines: seq<BlameLine>, terms: seq<string>, allowed: set<string>, lower: string -> string): seq<BlameLine> {
    var mentioning := Mentioning(lines, terms, allowed, lower);
    mentioning + Introducing(lines, CommitIds(mentioning), allowed)
  }

  /** The chosen lines are kept as a ghost list beside the samples made from them. */
  method PushBlameSample(chosen: seq<BlameLine>, seenLines: set<nat>, seenCommits: set<string>,
                         allowed: set<string>, line: BlameLine)
    returns (chosen': seq<BlameLine>, seenLines': set<nat>, seenCommits': set<string>)
    requires seenLines == LineNumbers(chosen) && seenCommits == CommitIds(chosen)
    ensures seenLines' == LineNumbers(chosen') && seenCommits' == CommitIds(chosen')
    ensures chosen' ==
      if |chosen| < MAX_BLAME_SAMPLES && line.commitId in allowed && line.lineNo !in LineNumbers(chosen)
      then chosen + [line] else chosen
  {
    chosen', seenLines', seenCommits' := chosen, seenLines, seenCommits;
    if |chosen| >= MAX_BLAME_SAMPLES || line.commitId !in allowed || line.lineNo in seenLines {
      return;
    }
    seenLines' := seenLines + {line.lineNo};
    seenCommits' := seenCommits + {line.commitId};
    chosen' := chosen + [line];
  }

  ghost predicate Sound(picked: seq<BlameLine>, lines: seq<BlameLine>, allowed: set<string>) {
    && |picked| <= MAX_BLAME_SAMPLES
    && DistinctLines(picked)
    && forall l <- picked :: l in lines && l.commitId in allowed
  }

  ghost predicate CoversMentions(picked: seq<BlameLine>, lines: seq<BlameLine>, terms: seq<string>,
                                 allowed: set<string>, lower: string -> string) {
    |picked| < MAX_BLAME_SAMPLES ==>
      forall l <- lines :: l.commitId in allowed && Matches(l, terms, lower) ==> l.lineNo in LineNumbers(picked)
  }

  ghost predicate FirstPass(lines: seq<BlameLine>, k: nat, terms: seq<string>, allowed: set<string>, lower: string -> string,
                            picked: seq<BlameLine>)
    requires k <= |lines|
  {
    && Sound(picked, lines[..k], allowed) && CoversMentions(picked, lines[..k], terms, allowed, lower)
    && (DistinctLines(lines) ==> picked == Take(Mentioning(lines[..k], terms, allowed, lower), MAX_BLAME_SAMPLES))
  }

  /** First pass: lines that mention a term. */
  method PickMentioning(lines: seq<BlameLine>, terms: seq<string>, allowed: set<string>, lower: string -> string)
    returns (picked: seq<BlameLine>, seenLines: set<nat>, seenCommits: set<string>)
    ensures seenLines == LineNumbers(picked) && seenCommits == CommitIds(picked)
    ensures Sound(picked, lines, allowed) && CoversMentions(picked, lines, terms, allowed, lower)
    ensures DistinctLines(lines) ==> picked == Take(Mentioning(lines, terms, allowed, lower), MAX_BLAME_SAMPLES)
  {
    picked, seenLines, seenCommits := [], {}, {};
    for k := 0 to |lines|
      invariant seenLines == LineNumbers(picked) && seenCommits == CommitIds(picked)
      invariant FirstPass(lines, k, terms, allowed, lower, picked)
    {
      ghost var before := picked;
      if Matches(lines[k], terms, lower) {
        picked, seenLines, seenCommits := PushBlameSample(picked, seenLines, seenCommits, allowed, lines[k]);
      }
      MentionStep(lines, k, terms, allowed, lower, before);
    }
    assert lines[..|lines|] == lines;
  }

  /** What the first pass has picked when it has read one more line. */
  function Picked(line: BlameLine, terms: seq<string>, allowed: set<string>, lower: string -> string, before: seq<BlameLine>)
    : seq<BlameLine>
  {
    if Matches(line, terms, lower) && |before| < MAX_BLAME_SAMPLES && line.commitId in allowed
       && line.lineNo !in LineNumbers(before)
    then before + [line] else before
  }

  lemma MentionStep(lines: seq<BlameLine>, k: nat, terms: seq<string>, allowed: set<string>, lower: string -> string,
                    before: seq<BlameLine>)
    requires k < |lines| && FirstPass(lines, k, terms, allowed, lower, before)
    ensures FirstPass(lines, k + 1, terms, allowed, lower, Picked(lines[k], terms, allowed, lower, before))
  {
    assert lines[..k + 1] == lines[..k] + [lines[k]];
    SoundStep(lines[..k], lines[k], allowed, before);
    CoverStep(lines[..k], lines[k], terms, allowed, lower, before, Picked(lines[k], terms, allowed, lower, before));
    if DistinctLines(lines) {
      ExactStep(lines, k, terms, allowed, lower, before);
    }
  }

  lemma ExactStep(lines: seq<BlameLine>, k: nat, terms: seq<string>, allowed: set<string>, lower: string -> string,
                  before: seq<BlameLine>)
    requires k < |lines| && DistinctLines(lines) && (forall l <- before :: l in lines[..k])
    requires before == Take(Mentioning(lines[..k], terms, allowed, lower), MAX_BLAME_SAMPLES)
    ensures Picked(lines[k], terms, allowed, lower, before)
         == Take(Mentioning(lines[..k + 1], terms, allowed, lower), MAX_BLAME_SAMPLES)
  {
    FreshLine(lines, k, before);
    MentioningGrows(lines, k, terms, allowed, lower);
    TakeGrows(Mentioning(lines[..k], terms, allowed, lower), lines[k], before);
  }

  lemma MentioningGrows(lines: seq<BlameLine>, k: nat, terms: seq<string>, allowed: set<string>, lower: string -> string)
    requires k < |lines|
    ensures Mentioning(lines[..k + 1], terms, allowed, lower)
         == if lines[k].commitId in allowed && Matches(lines[k], terms, lower)
            then Mentioning(lines[..k], terms, allowed, lower) + [lines[k]] else Mentioning(lines[..k], terms, allowed, lower)
  {
    assert lines[..k + 1][..k] == lines[..k];
  }

  lemma TakeGrows(all: seq<BlameLine>, line: BlameLine, taken: seq<BlameLine>)
    requires taken == Take(all, MAX_BLAME_SAMPLES)
    ensures Take(all + [line], MAX_BLAME_SAMPLES) == if |taken| < MAX_BLAME_SAMPLES then taken + [line] else taken
  {
  }

  lemma SoundStep(read: seq<BlameLine>, line: BlameLine, allowed: set<string>, before: seq<BlameLine>)
    requires Sound(before, read, allowed)
    ensures Sound(before, read + [line], allowed)
    ensures |before| < MAX_BLAME_SAMPLES && line.commitId in allowed && line.lineNo !in LineNumbers(before) ==>
              Sound(before + [line], read + [line], allowed)
  {
    assert forall l <- before :: l.lineNo in LineNumbers(before);
  }

  lemma CoverStep(read: seq<BlameLine>, line: BlameLine, terms: seq<string>, allowed: set<string>, lower: string -> string,
                  before: seq<BlameLine>, after: seq<BlameLine>)
    requires CoversMentions(before, read, terms, allowed, lower) && (after == before || after == before + [line])
    requires |before| < MAX_BLAME_SAMPLES && line.commitId in allowed && Matches(line, terms, lower) ==>
               line.lineNo in LineNumbers(before) || after == before + [line]
    ensures CoversMentions(after, read + [line], terms, allowed, lower)
  {
    assert LineNumbers(before) <= LineNumbers(after);
    if after == before + [line] {
      assert line in after;
    }
  }

  /** Second pass: commits not sampled yet, while there is room. */
  method PickIntroducing(lines: seq<BlameLine>, allowed: set<string>, mentioning: seq<BlameLine>,
                         seenLines: set<nat>, seenCommits: set<string>)
    returns (picked: seq<BlameLine>)
    requires seenLines == LineNumbers(mentioning) && seenCommits == CommitIds(mentioning)
    requires Sound(mentioning, lines, allowed)
    ensures Sound(picked, lines, allowed) && mentioning <= picked
    ensures DistinctLines(lines) ==>
      picked == Take(mentioning + Introducing(lines, CommitIds(mentioning), allowed), MAX_BLAME_SAMPLES)
  {
    picked := mentioning;
    var numbers, commits := seenLines, seenCommits;
    var k := 0;
    assert mentioning + Introducing(lines[..0], CommitIds(mentioning), allowed) == mentioning;
    while k < |lines| && |picked| < MAX_BLAME_SAMPLES
      invariant k <= |lines|
      invariant numbers == LineNumbers(picked) && commits == CommitIds(picked)
      invariant SecondPass(lines, k, allowed, mentioning, picked)
    {
      ghost var before := picked;
      if lines[k].commitId !in commits {
        picked, numbers, commits := PushBlameSample(picked, numbers, commits, allowed, lines[k]);
      }
      SecondPassStep(lines, k, allowed, mentioning, before, picked);
      k := k + 1;
    }
    SecondPassDone(lines, k, allowed, mentioning, picked);
  }

  ghost predicate SecondPass(lines: seq<BlameLine>, k: nat, allowed: set<string>, mentioning: seq<BlameLine>,
                             picked: seq<BlameLine>)
    requires k <= |lines|
  {
    && Sound(picked, lines, allowed) && mentioning <= picked
    && (DistinctLines(lines) ==> picked == Sampled(lines, k, allowed, mentioning))
  }

  lemma SecondPassStep(lines: seq<BlameLine>, k: nat, allowed: set<string>, mentioning: seq<BlameLine>,
                       before: seq<BlameLine>, after: seq<BlameLine>)
    requires k < |lines| && |before| < MAX_BLAME_SAMPLES && SecondPass(lines, k, allowed, mentioning, before)
    requires after ==
      if lines[k].commitId !in CommitIds(before) && lines[k].commitId in allowed && lines[k].lineNo !in LineNumbers(before)
      then before + [lines[k]] else before
    ensures SecondPass(lines, k + 1, allowed, mentioning, after)
  {
    SampledStep(lines, k, allowed, mentioning, before);
    SoundlyAdded(lines, lines[k], allowed, before);
  }

  lemma SoundlyAdded(lines: seq<BlameLine>, line: BlameLine, allowed: set<string>, before: seq<BlameLine>)
    requires Sound(before, lines, allowed) && line in lines
    ensures |before| < MAX_BLAME_SAMPLES && line.commitId in allowed && line.lineNo !in LineNumbers(before) ==>
              Sound(before + [line], lines, allowed)
  {
    assert forall l <- before :: l.lineNo in LineNumbers(before);
  }

  lemma SecondPassDone(lines: seq<BlameLine>, k: nat, allowed: set<string>, mentioning: seq<BlameLine>,
                       picked: seq<BlameLine>)
    requires k <= |lines| && SecondPass(lines, k, allowed, mentioning, picked)
    requires k == |lines| || |picked| == MAX_BLAME_SAMPLES
    ensures DistinctLines(lines) ==>
      picked == Take(mentioning + Introducing(lines, CommitIds(mentioning), allowed), MAX_BLAME_SAMPLES)
  {
    IntroducingPrefix(lines, k, CommitIds(mentioning), allowed);
    assert lines[..|lines|] == lines;
  }

  /** What both passes have picked when the second one has read `k` lines. */
  function Sampled(lines: seq<BlameLine>, k: nat, allowed: set<string>, mentioning: seq<BlameLine>): seq<BlameLine>
    requires k <= |lines|
  {
    mentioning + Introducing(lines[..k], CommitIds(mentioning), allowed)
  }

  lemma SampledStep(lines: seq<BlameLine>, k: nat, allowed: set<string>, mentioning: seq<BlameLine>, picked: seq<BlameLine>)
    requires k < |lines| && Sound(picked, lines, allowed)
    requires DistinctLines(lines) ==> picked == Sampled(lines, k, allowed, mentioning)
    ensures DistinctLines(lines) ==>
      Sampled(lines, k + 1, allowed, mentioning)
      == if lines[k].commitId !in CommitIds(picked) && lines[k].commitId in allowed && lines[k].lineNo !in LineNumbers(picked)
         then picked + [lines[k]] else picked
  {
    var known := CommitIds(mentioning);
    IntroducingStep(lines, k, known, allowed);
    CommitsOfBoth(mentioning, Introducing(lines[..k], known, allowed));
    if lines[k].commitId !in CommitIds(picked) {
      NewCommitNewLine(lines, picked, k);
    }
  }

  method SelectBlameSamples(lines: seq<BlameLine>, terms: seq<string>, allowed: set<string>, lower: string -> string)
    returns (samples: seq<Sample>)
    ensures |samples| <= MAX_BLAME_SAMPLES
    ensures forall i, j | 0 <= i < j < |samples| :: samples[i].lineNo != samples[j].lineNo
    ensures forall s <- samples :: exists l <- lines :: l.commitId in allowed && SampledFrom(s, l)
    ensures |samples| < MAX_BLAME_SAMPLES ==>
      forall l <- lines :: l.commitId in allowed && Matches(l, terms, lower) ==> exists s <- samples :: s.lineNo == l.lineNo
    ensures DistinctLines(lines) ==>
      samples == ToSamples(Take(Relevant(lines, terms, allowed, lower), MAX_BLAME_SAMPLES))
  {
    var mentioning, seenLines, seenCommits := PickMentioning(lines, terms, allowed, lower);
    var picked := PickIntroducing(lines, allowed, mentioning, seenLines, seenCommits);
    samples := ToSamples(picked);
    forall l | l in lines && l.commitId in allowed && Matches(l, terms, lower) && |samples| < MAX_BLAME_SAMPLES
      ensures exists s <- samples :: s.lineNo == l.lineNo
    {
      var i :| 0 <= i < |picked| && picked[i].lineNo == l.lineNo;
      assert samples[i].lineNo == l.lineNo;
    }
    if DistinctLines(lines) {
      FullFirstPass(lines, terms, allowed, lower, mentioning, picked);
    }
  }

  lemma FullFirstPass(lines: seq<BlameLine>, terms: seq<string>, allowed: set<string>, lower: string -> string,
                      mentioning: seq<BlameLine>, picked: seq<BlameLine>)
    requires mentioning == Take(Mentioning(lines, terms, allowed, lower), MAX_BLAME_SAMPLES)
    requires picked == Take(mentioning + Introducing(lines, CommitIds(mentioning), allowed), MAX_BLAME_SAMPLES)
    ensures picked == Take(Relevant(lines, terms, allowed, lower), MAX_BLAME_SAMPLES)
  {
  }

  lemma FreshLine(lines: seq<BlameLine>, k: nat, picked: seq<BlameLine>)
    requires k < |lines| && (forall l <- picked :: l in lines[..k])
    ensures DistinctLines(lines) ==> lines[k].lineNo !in LineNumbers(picked)
  {
  }

  lemma CommitsOfBoth(a: seq<BlameLine>, b: seq<BlameLine>)
    ensures CommitIds(a + b) == CommitIds(a) + CommitIds(b)
  {
  }

  lemma NewCommitNewLine(lines: seq<BlameLine>, picked: seq<BlameLine>, k: nat)
    requires k < |lines| && lines[k].commitId !in CommitIds(picked)
    requires forall l <- picked :: l in lines
    ensures DistinctLines(lines) ==> lines[k].lineNo !in LineNumbers(picked)
  {
  }

  lemma IntroducingStep(lines: seq<BlameLine>, k: nat, known: set<string>, allowed: set<string>)
    requires k < |lines|
    ensures
      var front := Introducing(lines[..k], known, allowed);
      Introducing(lines[..k + 1], known, allowed) ==
        if lines[k].commitId in allowed && lines[k].commitId !in known + CommitIds(front) then front + [lines[k]] else front
  {
    assert lines[..k + 1][..k] == lines[..k];
  }

  lemma {:induction false} IntroducingPrefix(lines: seq<BlameLine>, k: nat, known: set<string>, allowed: set<string>)
    requires k <= |lines|
    ensures Introducing(lines[..k], known, allowed) <= Introducing(lines, known, allowed)
    decreases |lines| - k
  {
    if k < |lines| {
      IntroducingStep(lines, k, known, allowed);
      IntroducingPrefix(lines, k + 1, known, allowed);
    } else {
      assert lines[..k] == lines;
    }
  }

  lemma {:induction false} MentioningIsPart(lines: seq<BlameLine>, terms: seq<string>, allowed: set<string>, lower: string -> string)
    ensures forall l :: l in Mentioning(lines, terms, allowed, lower) <==>
              l in lines && l.commitId in allowed && Matches(l, terms, lower)
  {
    if lines != [] {
      MentioningIsPart(lines[..|lines| - 1], terms, allowed, lower);
      assert lines == lines[..|lines| - 1] + [lines[|lines| - 1]];
    }
  }

  lemma {:induction false} IntroducingCovers(lines: seq<BlameLine>, known: set<string>, allowed: set<string>)
    ensures CommitIds(Introducing(lines, known, allowed)) == CommitIds(lines) * allowed - known
  {
    if lines != [] {
      var front, last := lines[..|lines| - 1], lines[|lines| - 1];
      IntroducingCovers(front, known, allowed);
      assert lines == front + [last];
      assert CommitIds(lines) == CommitIds(front) + {last.commitId};
      var kept := Introducing(front, known, allowed);
      assert CommitIds(kept + [last]) == CommitIds(kept) + {last.commitId};
    }
  }

  /** The lower-case content of the line contains the lower-case term. */
  ghost predicate Mentions(line: BlameLine, term: string, lower: string -> string) {
    exists before, after :: lower(line.content) == before + lower(term) + after
  }

  lemma MatchesExactly(line: BlameLine, terms: seq<string>, lower: string -> string)
    ensures Matches(line, terms, lower) <==> exists t :: t in terms && Mentions(line, t, lower)
  {
    forall t
      ensures Contains(lower(line.content), lower(t)) <==> Mentions(line, t, lower)
    {
      ContainsExactly(lower(line.content), lower(t));
    }
  }

  /** Below the cap every mentioning line and at least one line of every allowed commit is sampled. */
  lemma RelevantCoverage(lines: seq<BlameLine>, terms: seq<string>, allowed: set<string>, lower: string -> string)
    ensures
      var relevant := Relevant(lines, terms, allowed, lower);
      && (forall l :: l in Mentioning(lines, terms, allowed, lower) <==>
            l in lines && l.commitId in allowed && exists t :: t in terms && Mentions(l, t, lower))
      && Mentioning(lines, terms, allowed, lower) <= relevant
      && CommitIds(relevant) == CommitIds(lines) * allowed
  {
    var mentioning := Mentioning(lines, terms, allowed, lower);
    var introducing := Introducing(lines, CommitIds(mentioning), allowed);
    MentioningIsPart(lines, terms, allowed, lower);
    forall l
      ensures Matches(l, terms, lower) <==> exists t :: t in terms && Mentions(l, t, lower)
    {
      MatchesExactly(l, terms, lower);
    }
    IntroducingCovers(lines, CommitIds(mentioning), allowed);
    assert CommitIds(mentioning + introducing) == CommitIds(mentioning) + CommitIds(introducing);
  }
}
