/**
 The transactional commit of one change group: every check comes before the first write, a
 commit sees exactly the paths of the group, and a failure is rolled back path by path.
 Paths in the index are the ones that differ from HEAD.
 */
module CommitGroup {
  import opened ChangeEvidence
  import opened EntryOrder
  import opened Options
  import Utf8

  const MAX_MESSAGE_BYTES: nat := 500

  datatype PlannedFile = PlannedFile(path: string, staged: bool)

  datatype Group = Group(id: string, files: seq<PlannedFile>, executable: bool)

  datatype CommitError = ConfirmationRequired | InvalidMessage | EvidenceFailed(cause: EvidenceError) | WorktreeUpdated |
    PlanFailed | GroupNotFound | IndexNotClean | CommitFailed

  datatype Result<+T> = Ok(value: T) | Err(error: CommitError)

  datatype Input = Input(confirmed: bool, message: string, snapshotId: string, groupId: string)

  /** A call on the repository and its outcome; a commit records the index it wrote out. */
  datatype Call =
    | StageCall(path: string, ok: bool)
    | UnstageCall(path: string, ok: bool)
    | CommitCall(message: string, index: map<string, string>, ok: bool)

  // ---- The message ----

  predicate IsWhite(c: char) {
    || '\t' <= c <= '\r'
    || c == ' '
    || c == '\U{0085}' || c == '\U{00a0}' || c == '\U{1680}'
    || '\U{2000}' <= c <= '\U{200a}'
    || c == '\U{2028}' || c == '\U{2029}' || c == '\U{202f}' || c == '\U{205f}' || c == '\U{3000}'
  }

  function TrimMessage(s: string): (r: string)
    decreases |s|
  {
    if s != "" && IsWhite(s[0]) then TrimMessage(s[1..])
    else if s != "" && IsWhite(s[|s| - 1]) then TrimMessage(s[..|s| - 1])
    else s
  }

  // ---- The checks that come before any write ----

  function FindGroup(groups: seq<Group>, id: string): Option<Group> {
    if groups == [] then None
    else if groups[0].id == id then Some(groups[0])
    else FindGroup(groups[1..], id)
  }

  function StagedPaths(files: seq<EvidenceFile>): set<string> {
    set f | f in files && f.staged :: f.path
  }

  function Paths(files: seq<PlannedFile>): seq<string> {
    seq(|files|, i requires 0 <= i < |files| => files[i].path)
  }

  function PathSet(files: seq<PlannedFile>): set<string> {
    set f | f in files :: f.path
  }

  predicate AnyStaged(files: seq<PlannedFile>) {
    exists f :: f in files && f.staged
  }

  predicate AllStaged(files: seq<PlannedFile>) {
    forall f | f in files :: f.staged
  }

  /** The plan builder and the snapshot hasher are arbitrary functions of the evidence. */
  datatype Planner = Planner(snapshot: seq<Token> -> string, plan: Evidence -> Option<seq<Group>>)

  function Chosen(planner: Planner, tree: Worktree, refreshed: Option<seq<Entry>>, input: Input): Result<Group> {
    var message := TrimMessage(input.message);
    if !input.confirmed then Err(ConfirmationRequired)
    else if message == "" || Utf8.Bytes(message) > MAX_MESSAGE_BYTES || '\0' in message then Err(InvalidMessage)
    else
      var outcome := CollectRefreshed(tree, refreshed);
      if outcome.Rejected? then Err(EvidenceFailed(outcome.error))
      else if planner.snapshot(outcome.evidence.hashed) != input.snapshotId then Err(WorktreeUpdated)
      else
        var groups := planner.plan(outcome.evidence);
        if groups.None? then Err(PlanFailed)
        else
          var group := FindGroup(groups.value, input.groupId);
          if group.None? then Err(GroupNotFound)
          else if !group.value.executable then Err(IndexNotClean)
          else
            var staged := StagedPaths(outcome.evidence.files);
            if AnyStaged(group.value.files) then
              if !AllStaged(group.value.files) || staged != PathSet(group.value.files) then Err(IndexNotClean)
              else Ok(group.value)
            else if staged != {} then Err(IndexNotClean)
            else Ok(group.value)
  }

  // ---- Traces of repository calls ----

  // ---- When a request is refused ----

  /** Without the white space at its ends the message is not empty, at most 500 bytes long and without a null character. */
  predicate Sendable(message: string) {
    var trimmed := TrimMessage(message);
    trimmed != "" && Utf8.Bytes(trimmed) <= 500 && forall i | 0 <= i < |trimmed| :: trimmed[i] != '\0'
  }

  /** The characters with the Unicode property White_Space. */
  const WHITE: string :=
    ['\t', '\n', '\U{000b}', '\U{000c}', '\r', ' ', '\U{0085}', '\U{00a0}', '\U{1680}', '\U{2000}', '\U{2001}', '\U{2002}',
     '\U{2003}', '\U{2004}', '\U{2005}', '\U{2006}', '\U{2007}', '\U{2008}', '\U{2009}', '\U{200a}', '\U{2028}', '\U{2029}',
     '\U{202f}', '\U{205f}', '\U{3000}']

  lemma WhiteExactly(c: char)
    ensures IsWhite(c) <==> c in WHITE
  {
  }

  /** Trimming takes off white space, and all of it. */
  lemma TrimExactly(s: string) returns (before: string, after: string)
    ensures var trimmed := TrimMessage(s);
            && s == before + trimmed + after
            && (forall c | c in before + after :: c in WHITE)
            && (trimmed != "" ==> trimmed[0] !in WHITE && trimmed[|trimmed| - 1] !in WHITE)
  {
    before, after := TrimSplit(s);
    forall c
      ensures IsWhite(c) <==> c in WHITE
    {
      WhiteExactly(c);
    }
  }

  lemma {:induction false} TrimSplit(s: string) returns (before: string, after: string)
    ensures var trimmed := TrimMessage(s);
            && s == before + trimmed + after
            && (forall c | c in before + after :: IsWhite(c))
            && (trimmed != "" ==> !IsWhite(trimmed[0]) && !IsWhite(trimmed[|trimmed| - 1]))
    decreases |s|
  {
    if s != "" && IsWhite(s[0]) {
      before, after := TrimSplit(s[1..]);
      assert s == [s[0]] + (before + TrimMessage(s) + after);
      assert s == [s[0]] + before + TrimMessage(s) + after;
      before := [s[0]] + before;
    } else if s != "" && IsWhite(s[|s| - 1]) {
      before, after := TrimSplit(s[..|s| - 1]);
      assert s == (before + TrimMessage(s) + after) + [s[|s| - 1]];
      assert s == before + TrimMessage(s) + (after + [s[|s| - 1]]);
      after := after + [s[|s| - 1]];
    } else {
      before, after := "", "";
    }
  }

  /** Group `k` is the first one with this id. */
  predicate FirstWithId(groups: seq<Group>, id: string, k: int) {
    0 <= k < |groups| && groups[k].id == id && forall j | 0 <= j < k :: groups[j].id != id
  }

  lemma {:induction false} FindGroupExactly(groups: seq<Group>, id: string)
    ensures forall k | FirstWithId(groups, id, k) :: FindGroup(groups, id) == Some(groups[k])
    ensures FindGroup(groups, id).None? <==> forall g | g in groups :: g.id != id
  {
    if groups != [] && groups[0].id != id {
      FindGroupExactly(groups[1..], id);
      assert groups == [groups[0]] + groups[1..];
      forall k | FirstWithId(groups, id, k)
        ensures FindGroup(groups, id) == Some(groups[k])
      {
        assert FirstWithId(groups[1..], id, k - 1);
      }
    } else if groups != [] {
      assert groups[0] in groups;
    }
  }

  /**
   A group with staged files is committed as it is, and must be all that is staged; any other
   needs a clean index.
   */
  predicate Committable(group: Group, staged: set<string>) {
    && group.executable
    && if exists f :: f in group.files && f.staged
       then (forall f | f in group.files :: f.staged) && staged == set f | f in group.files :: f.path
       else staged == {}
  }

  /** What a request is refused for, in the order of the checks. */
  lemma RefusedExactly(planner: Planner, tree: Worktree, refreshed: Option<seq<Entry>>, input: Input)
    ensures var chosen := Chosen(planner, tree, refreshed, input);
            if !input.confirmed then chosen == Err(ConfirmationRequired)
            else if !Sendable(input.message) then chosen == Err(InvalidMessage)
            else if CollectRefreshed(tree, refreshed).Rejected?
            then chosen == Err(EvidenceFailed(CollectRefreshed(tree, refreshed).error))
            else
              var evidence := CollectRefreshed(tree, refreshed).evidence;
              if planner.snapshot(evidence.hashed) != input.snapshotId then chosen == Err(WorktreeUpdated)
              else if planner.plan(evidence).None? then chosen == Err(PlanFailed)
              else
                var groups, staged := planner.plan(evidence).value, set f | f in evidence.files && f.staged :: f.path;
                && ((forall g | g in groups :: g.id != input.groupId) ==> chosen == Err(GroupNotFound))
                && forall k | FirstWithId(groups, input.groupId, k) ::
                     chosen == if Committable(groups[k], staged) then Ok(groups[k]) else Err(IndexNotClean)
  {
    assert '\0' in TrimMessage(input.message) <==>
           exists i | 0 <= i < |TrimMessage(input.message)| :: TrimMessage(input.message)[i] == '\0';
    if input.confirmed && Sendable(input.message) && CollectRefreshed(tree, refreshed).Collected? {
      var groups := planner.plan(CollectRefreshed(tree, refreshed).evidence);
      if groups.Some? {
        FindGroupExactly(groups.value, input.groupId);
      }
    }
  }

  function Effect(content: string -> string, index: map<string, string>, call: Call): map<string, string> {
    match call
    case StageCall(path, ok) => if ok then index[path := content(path)] else index
    case UnstageCall(path, ok) => if ok then index - {path} else index
    case CommitCall(_, _, ok) => if ok then map[] else index
  }

  function Replay(content: string -> string, index: map<string, string>, calls: seq<Call>): map<string, string> {
    if calls == [] then index
    else Effect(content, Replay(content, index, calls[..|calls| - 1]), calls[|calls| - 1])
  }

  lemma {:induction false} ReplayAppend(content: string -> string, index: map<string, string>, a: seq<Call>, b: seq<Call>)
    ensures Replay(content, index, a + b) == Replay(content, Replay(content, index, a), b)
  {
    if b == [] {
      assert a + b == a;
    } else {
      ReplayAppend(content, index, a, b[..|b| - 1]);
      assert (a + b)[..|a + b| - 1] == a + b[..|b| - 1];
    }
  }

  function AllStagedCalls(paths: seq<string>): seq<Call> {
    seq(|paths|, i requires 0 <= i < |paths| => StageCall(paths[i], true))
  }

  /** One unstage call per path, last path first, with any outcome. */
  ghost predicate IsRollback(calls: seq<Call>, paths: seq<string>) {
    && |calls| == |paths|
    && forall j | 0 <= j < |calls| :: calls[j].UnstageCall? && calls[j].path == paths[|paths| - 1 - j]
  }

  /** Staging stopped at path `k`, or at the commit when `k` is the number of paths. */
  ghost predicate FailedAt(calls: seq<Call>, paths: seq<string>, k: nat, message: string, index: map<string, string>) {
    && k <= |paths|
    && |calls| == 2 * k + 1
    && calls[..k] == AllStagedCalls(paths[..k])
    && calls[k] == (if k < |paths| then StageCall(paths[k], false) else CommitCall(message, index, false))
    && IsRollback(calls[k + 1..], paths[..k])
  }

  ghost predicate Unstaged(calls: seq<Call>, path: string) {
    UnstageCall(path, true) in calls
  }

  lemma {:induction false} StagingAddsPaths(content: string -> string, paths: seq<string>)
    ensures Replay(content, map[], AllStagedCalls(paths)).Keys == set p | p in paths
  {
    if paths != [] {
      var front, last := paths[..|paths| - 1], paths[|paths| - 1];
      StagingAddsPaths(content, front);
      var calls := AllStagedCalls(paths);
      assert calls[..|calls| - 1] == AllStagedCalls(front);
      assert paths == front + [last];
    }
  }

  lemma {:induction false} RollbackRemoves(content: string -> string, index: map<string, string>, calls: seq<Call>)
    requires forall c | c in calls :: c.UnstageCall?
    ensures Replay(content, index, calls) == map p | p in index && !Unstaged(calls, p) :: index[p]
  {
    if calls != [] {
      var front, last := calls[..|calls| - 1], calls[|calls| - 1];
      assert calls == front + [last];
      RollbackRemoves(content, index, front);
      assert last in calls;
    }
  }

  lemma FailedAtReplay(content: string -> string, calls: seq<Call>, paths: seq<string>, k: nat, message: string,
                       index: map<string, string>)
    requires FailedAt(calls, paths, k, message, index)
    ensures Replay(content, map[], calls).Keys == set p | p in paths[..k] && !Unstaged(calls[k + 1..], p)
  {
    var staging, failing, rollback := calls[..k], [calls[k]], calls[k + 1..];
    assert calls == (staging + failing) + rollback;
    ReplayAppend(content, map[], staging + failing, rollback);
    assert (staging + failing)[..k] == staging;
    StagingAddsPaths(content, paths[..k]);
    RollbackRemoves(content, Replay(content, map[], staging), rollback);
  }

  /**
   After a failure the index is back to what it was exactly when each path staged so far has
   been unstaged successfully.
   */
  lemma RestoredExactlyWhenUnstaged(content: string -> string, calls: seq<Call>, paths: seq<string>, k: nat,
                                    message: string, index: map<string, string>)
    requires FailedAt(calls, paths, k, message, index)
    ensures Replay(content, map[], calls) == map[] <==> forall p | p in paths[..k] :: Unstaged(calls[k + 1..], p)
  {
    FailedAtReplay(content, calls, paths, k, message, index);
    var after := Replay(content, map[], calls);
    if forall p | p in paths[..k] :: Unstaged(calls[k + 1..], p) {
      assert after.Keys == {};
    } else {
      var p :| p in paths[..k] && !Unstaged(calls[k + 1..], p);
      assert p in after.Keys;
    }
  }

  /** When no unstage call fails, nothing of the attempt remains. */
  lemma RestoredWhenUnstageWorks(content: string -> string, calls: seq<Call>, paths: seq<string>, k: nat,
                                 message: string, index: map<string, string>)
    requires FailedAt(calls, paths, k, message, index)
    requires forall c | c in calls && c.UnstageCall? :: c.ok
    ensures Replay(content, map[], calls) == map[]
  {
    var rollback := calls[k + 1..];
    forall p | p in paths[..k]
      ensures Unstaged(rollback, p)
    {
      var i :| 0 <= i < k && paths[..k][i] == p;
      assert rollback[k - 1 - i] in calls;
      assert rollback[k - 1 - i] == UnstageCall(p, true);
    }
    RestoredExactlyWhenUnstaged(content, calls, paths, k, message, index);
  }

  function StagedEntries(status: seq<Entry>): set<string> {
    set e | e in status && e.staged :: e.path
  }

  lemma SamePaths(files: seq<PlannedFile>)
    ensures (set p | p in Paths(files)) == PathSet(files)
  {
    forall p | p in PathSet(files)
      ensures p in Paths(files)
    {
      var f :| f in files && f.path == p;
      var i :| 0 <= i < |files| && files[i] == f;
      assert Paths(files)[i] == p;
    }
  }

  /** A path has a staged record in the evidence exactly when it has a staged entry in the status. */
  lemma EvidenceShowsIndex(tree: Worktree, status: seq<Entry>, path: string)
    requires DiffsReadable(tree, Sort(status))
    ensures path in StagedPaths(FilesOf(tree, Sort(status))) <==> path in StagedEntries(status)
  {
    SortSorts(status);
    var files, entries := FilesOf(tree, Sort(status)), Sort(status);
    if path in StagedPaths(files) {
      var f :| f in files && f.staged && f.path == path;
      var i :| 0 <= i < |files| && files[i] == f;
      RecordNamesEntry(tree, entries, i);
      SameMembers(entries, status, entries[i]);
    }
    if path in StagedEntries(status) {
      var e :| e in status && e.staged && e.path == path;
      SameMembers(status, entries, e);
      var i :| 0 <= i < |entries| && entries[i] == e;
      RecordNamesEntry(tree, entries, i);
      assert files[i] in files;
    }
  }

  /** The calls of a successful attempt: the commit wrote out exactly the paths of the group. */
  ghost predicate Committed(content: string -> string, before: seq<Call>, after: seq<Call>, files: seq<PlannedFile>,
                            message: string, index: map<string, string>)
  {
    var staging := if AnyStaged(files) then [] else AllStagedCalls(Paths(files));
    var tree := Replay(content, index, staging);
    && after == before + staging + [CommitCall(message, tree, true)]
    && tree.Keys == PathSet(files)
  }

  /** The calls of a failed attempt. A commit that failed was shown exactly the paths of the group. */
  ghost predicate Abandoned(content: string -> string, before: seq<Call>, after: seq<Call>, files: seq<PlannedFile>,
                            message: string, index: map<string, string>, indexAfter: map<string, string>)
  {
    if AnyStaged(files) then
      && after == before + [CommitCall(message, index, false)]
      && index.Keys == PathSet(files)
      && indexAfter == index
    else
      && index == map[]
      && before <= after
      && var calls := after[|before|..];
         var tree := Replay(content, map[], AllStagedCalls(Paths(files)));
         && tree.Keys == PathSet(files)
         && indexAfter == Replay(content, map[], calls)
         && exists k: nat :: FailedAt(calls, Paths(files), k, message, tree)
  }

  /** Some path was staged by the attempt and no later unstage call of it succeeded. */
  ghost predicate LeftBehind(before: seq<Call>, after: seq<Call>, path: string)
    requires before <= after
  {
    StageCall(path, true) in after[|before|..] && !Unstaged(after[|before|..], path)
  }

  /** A failed attempt restores the index exactly when it leaves no path behind. */
  lemma FailureRestoresIndex(content: string -> string, before: seq<Call>, after: seq<Call>, files: seq<PlannedFile>,
                             message: string, index: map<string, string>, indexAfter: map<string, string>)
    requires Abandoned(content, before, after, files, message, index, indexAfter)
    ensures before <= after
    ensures indexAfter == index <==> forall path :: !LeftBehind(before, after, path)
  {
    if AnyStaged(files) {
      assert after[|before|..] == [CommitCall(message, index, false)];
    } else {
      var calls, paths := after[|before|..], Paths(files);
      var tree := Replay(content, map[], AllStagedCalls(paths));
      var k: nat :| FailedAt(calls, paths, k, message, tree);
      RestoredExactlyWhenUnstaged(content, calls, paths, k, message, tree);
      forall path
        ensures LeftBehind(before, after, path) <==> path in paths[..k] && !Unstaged(calls[k + 1..], path)
      {
        AttemptCalls(calls, paths, k, message, tree, path);
      }
    }
  }

  lemma AttemptCalls(calls: seq<Call>, paths: seq<string>, k: nat, message: string, tree: map<string, string>, path: string)
    requires FailedAt(calls, paths, k, message, tree)
    ensures StageCall(path, true) in calls <==> path in paths[..k]
    ensures Unstaged(calls, path) <==> Unstaged(calls[k + 1..], path)
  {
    assert calls == calls[..k] + [calls[k]] + calls[k + 1..];
    var staging := AllStagedCalls(paths[..k]);
    assert StageCall(path, true) in staging <==> path in paths[..k] by {
      if path in paths[..k] {
        var i :| 0 <= i < k && paths[..k][i] == path;
        assert staging[i] == StageCall(path, true);
      }
    }
  }

  lemma OneMoreStaged(content: string -> string, index: map<string, string>, paths: seq<string>, k: nat)
    requires k < |paths|
    ensures AllStagedCalls(paths[..k + 1]) == AllStagedCalls(paths[..k]) + [StageCall(paths[k], true)]
    ensures Replay(content, index, AllStagedCalls(paths[..k + 1]))
         == Replay(content, index, AllStagedCalls(paths[..k]))[paths[k] := content(paths[k])]
  {
    var calls := AllStagedCalls(paths[..k + 1]);
    assert calls[..k] == AllStagedCalls(paths[..k]);
    assert calls == calls[..k] + [calls[k]];
  }

  lemma AttemptFailedAt(before: seq<Call>, tried: seq<Call>, after: seq<Call>, paths: seq<string>, k: nat,
                        message: string, tree: map<string, string>, failing: Call)
    requires k <= |paths| && tried == before + AllStagedCalls(paths[..k]) + [failing] && tried <= after
    requires failing == if k < |paths| then StageCall(paths[k], false) else CommitCall(message, tree, false)
    requires IsRollback(after[|tried|..], paths[..k])
    ensures before <= after && FailedAt(after[|before|..], paths, k, message, tree)
  {
    var calls := after[|before|..];
    assert before <= tried <= after;
    assert tried[|before|..] == AllStagedCalls(paths[..k]) + [failing];
    assert calls[..k + 1] == tried[|before|..];
    assert calls[..k] == calls[..k + 1][..k] == AllStagedCalls(paths[..k]);
    assert calls[k] == calls[..k + 1][k] == failing;
    assert calls[k + 1..] == after[|tried|..];
  }

  lemma StagedTree(content: string -> string, files: seq<PlannedFile>)
    ensures Replay(content, map[], AllStagedCalls(Paths(files))).Keys == PathSet(files)
  {
    StagingAddsPaths(content, Paths(files));
    SamePaths(files);
  }

  lemma AbandonedBy(content: string -> string, atStart: map<string, string>, before: seq<Call>, tried: seq<Call>,
                    after: seq<Call>, files: seq<PlannedFile>, k: nat, message: string)
    requires !AnyStaged(files) && Replay(content, atStart, before) == map[] && k <= |files| && tried <= after
    requires tried == before + AllStagedCalls(Paths(files)[..k])
                      + [if k < |files| then StageCall(Paths(files)[k], false)
                         else CommitCall(message, Replay(content, map[], AllStagedCalls(Paths(files))), false)]
    requires IsRollback(after[|tried|..], Paths(files)[..k])
    ensures Abandoned(content, before, after, files, message, map[], Replay(content, atStart, after))
  {
    var paths := Paths(files);
    var tree := Replay(content, map[], AllStagedCalls(paths));
    AttemptFailedAt(before, tried, after, paths, k, message, tree, tried[|tried| - 1]);
    StagedTree(content, files);
    assert after == before + after[|before|..];
    ReplayAppend(content, atStart, before, after[|before|..]);
  }

  // ---- The repository ----

  class RepoContext {
    const content: string -> string
    const atStart: map<string, string>
    var index: map<string, string>
    var calls: seq<Call>

    ghost predicate Valid()
      reads this
    {
      index == Replay(content, atStart, calls)
    }

    constructor (content: string -> string, index: map<string, string>)
      ensures Valid() && this.content == content && this.index == index && calls == []
    {
      this.content, this.atStart, this.index, this.calls := content, index, index, [];
    }

    method Called(call: Call)
      requires Valid()
      modifies this
      ensures Valid() && calls == old(calls) + [call] && index == Effect(content, old(index), call)
    {
      assert (calls + [call])[..|calls|] == calls;
      index, calls := Effect(content, index, call), calls + [call];
    }

    /** May fail at any call; a failure leaves the index as it is. */
    method Stage(path: string) returns (ok: bool)
      requires Valid()
      modifies this
      ensures Valid() && calls == old(calls) + [StageCall(path, ok)]
      ensures index == if ok then old(index)[path := content(path)] else old(index)
    {
      ok := *;
      Called(StageCall(path, ok));
    }

    method Unstage(path: string) returns (ok: bool)
      requires Valid()
      modifies this
      ensures Valid() && calls == old(calls) + [UnstageCall(path, ok)]
      ensures index == if ok then old(index) - {path} else old(index)
    {
      ok := *;
      Called(UnstageCall(path, ok));
    }

    method Commit(message: string) returns (ok: bool)
      requires Valid()
      modifies this
      ensures Valid() && calls == old(calls) + [CommitCall(message, old(index), ok)]
      ensures index == if ok then map[] else old(index)
    {
      ok := *;
      Called(CommitCall(message, index, ok));
    }

    method RollbackStaged(paths: seq<string>)
      requires Valid()
      modifies this
      ensures Valid() && old(calls) <= calls && IsRollback(calls[|old(calls)|..], paths)
    {
      ghost var before := calls;
      for i := |paths| downto 0
        invariant Valid() && before <= calls && IsRollback(calls[|before|..], paths[i..])
      {
        var _ := Unstage(paths[i]);
      }
    }

    /** Stages the paths in order; on the first failure `done` tells how many were staged. */
    method StageAll(paths: seq<string>) returns (done: nat)
      requires Valid()
      modifies this
      ensures Valid() && done <= |paths|
      ensures calls == old(calls) + AllStagedCalls(paths[..done])
                       + (if done < |paths| then [StageCall(paths[done], false)] else [])
      ensures done == |paths| ==> index == Replay(content, old(index), AllStagedCalls(paths))
    {
      ghost var before, indexBefore := calls, index;
      done := 0;
      while done < |paths|
        invariant Valid() && done <= |paths|
        invariant calls == before + AllStagedCalls(paths[..done])
        invariant index == Replay(content, indexBefore, AllStagedCalls(paths[..done]))
      {
        var ok := Stage(paths[done]);
        if !ok {
          return;
        }
        OneMoreStaged(content, indexBefore, paths, done);
        done := done + 1;
      }
      assert paths[..done] == paths;
    }

    /**
     Commits one group of the plan. `refreshed` is what a refresh of this repository reports, so
     its staged entries are the keys of the index.
     */
    method CommitGroup(planner: Planner, tree: Worktree, refreshed: Option<seq<Entry>>, input: Input)
      returns (result: Result<()>)
      requires Valid() && (refreshed.Some? ==> index.Keys == StagedEntries(refreshed.value))
      modifies this
      ensures Valid()
      ensures var chosen := Chosen(planner, tree, refreshed, input);
              var message := TrimMessage(input.message);
              && (chosen.Err? ==> result == Err(chosen.error) && calls == old(calls) && index == old(index))
              && (chosen.Ok? && result.Ok? ==>
                    Committed(content, old(calls), calls, chosen.value.files, message, old(index)) && index == map[])
              && (chosen.Ok? && result.Err? ==>
                    result == Err(CommitFailed)
                    && Abandoned(content, old(calls), calls, chosen.value.files, message, old(index), index))
    {
      if !input.confirmed {
        return Err(ConfirmationRequired);
      }
      var message := TrimMessage(input.message);
      if message == "" || Utf8.Bytes(message) > MAX_MESSAGE_BYTES || '\0' in message {
        return Err(InvalidMessage);
      }
      var outcome := CollectChangeEvidence(tree, refreshed);
      if outcome.Rejected? {
        return Err(EvidenceFailed(outcome.error));
      }
      if planner.snapshot(outcome.evidence.hashed) != input.snapshotId {
        return Err(WorktreeUpdated);
      }
      var groups := planner.plan(outcome.evidence);
      if groups.None? {
        return Err(PlanFailed);
      }
      var found := FindGroup(groups.value, input.groupId);
      if found.None? {
        return Err(GroupNotFound);
      }
      var group := found.value;
      if !group.executable {
        return Err(IndexNotClean);
      }
      var staged := StagedPaths(outcome.evidence.files);
      forall path
        ensures path in staged <==> path in StagedEntries(refreshed.value)
      {
        EvidenceShowsIndex(tree, refreshed.value, path);
      }
      assert staged == index.Keys;
      if AnyStaged(group.files) {
        if !AllStaged(group.files) || staged != PathSet(group.files) {
          return Err(IndexNotClean);
        }
        var ok := Commit(message);
        result := if ok then Ok(()) else Err(CommitFailed);
        return;
      }
      if staged != {} {
        return Err(IndexNotClean);
      }
      result := StageAndCommit(group.files, message);
    }

    method StageAndCommit(files: seq<PlannedFile>, message: string) returns (result: Result<()>)
      requires Valid() && index == map[] && !AnyStaged(files)
      modifies this
      ensures Valid()
      ensures result.Ok? ==> Committed(content, old(calls), calls, files, message, map[]) && index == map[]
      ensures result.Err? ==>
        result == Err(CommitFailed) && Abandoned(content, old(calls), calls, files, message, map[], index)
    {
      ghost var before := calls;
      var paths := Paths(files);
      var done := StageAll(paths);
      assert paths[..|paths|] == paths;
      var ok := false;
      if done == |paths| {
        ok := Commit(message);
      }
      if ok {
        StagedTree(content, files);
        return Ok(());
      }
      ghost var tried := calls;
      RollbackStaged(paths[..done]);
      AbandonedBy(content, atStart, before, tried, calls, files, done, message);
      return Err(CommitFailed);
    }
  }
}
