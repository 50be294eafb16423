/**
 Whole runs of the journal: sequences of the steps of `JournalSteps`, from a new goal. Careful
 runs come first; of the others it is said when exactly a write becomes ambiguous.
 */
module JournalRuns {
  import opened GoalStatus
  import opened JournalSteps
  import opened Options
  import opened ToolJournal

  ghost function After(target: Target, files: Files, history: seq<Event>): State {
    if history == [] then Start(target, files)
    else Step(After(target, files, history[..|history| - 1]), history[|history| - 1])
  }

  /** Every event of the run that happens is careful. */
  ghost predicate CarefulRun(target: Target, files: Files, history: seq<Event>) {
    if history == [] then true
    else
      var front, last := history[..|history| - 1], history[|history| - 1];
      CarefulRun(target, files, front) && (Enabled(After(target, files, front), last) ==> Careful(After(target, files, front), last))
  }

  // ---- Careful runs ----

  /** The invariant holds in every careful run from every set of files. */
  lemma {:induction false} RunKeeps(target: Target, files: Files, history: seq<Event>)
    requires CarefulRun(target, files, history)
    ensures Invariant(After(target, files, history)) && After(target, files, history).target == target
  {
    if history == [] {
      forall file
        ensures Tracked(target, Start(target, files).mem, files, file)
      {
      }
    } else {
      RunKeeps(target, files, history[..|history| - 1]);
      StepKeeps(After(target, files, history[..|history| - 1]), history[|history| - 1]);
    }
  }

  /** At no point of a careful run would a recovery find a complete write ambiguous. */
  lemma WritesAreNeverAmbiguous(target: Target, files: Files, history: seq<Event>, p: Intent)
    requires CarefulRun(target, files, history)
    requires p in After(target, files, history).mem.journal.pending && CompleteWrite(p)
    ensures ClassOf(Reading(target, After(target, files, history).files), p) in {Some(Recovered), Some(Retry)}
  {
    RunKeeps(target, files, history);
    TrackedIsResolved(target, After(target, files, history).mem, After(target, files, history).files, p);
  }

  /**
   Whenever no complete write is pending in a careful run, every file is the one the receipts
   name (or the one the goal was confirmed with), and the receipts match the repository exactly
   when the last receipt of each spelling is the last one of its file.
   */
  lemma SettledBooksMatch(target: Target, files: Files, history: seq<Event>)
    requires CarefulRun(target, files, history) && NoWritePending(After(target, files, history).mem.journal)
    ensures var s := After(target, files, history);
            && (forall file :: Current(s.files, file) == Known(target, s.mem, file))
            && (ReceiptsMatch(s.mem.journal.receipts, s.mem.journal.superseded, Reading(target, s.files))
                <==> SpellingsAgree(target, s.mem.journal))
  {
    RunKeeps(target, files, history);
    var s := After(target, files, history);
    forall file
      ensures Current(s.files, file) == Known(target, s.mem, file)
    {
      assert Tracked(target, s.mem, s.files, file);
    }
    MatchIsAgreement(target, s.mem, s.files);
  }

  /** With one spelling for each file a settled goal finds its receipts matching. */
  lemma OneSpellingMatches(target: Target, files: Files, history: seq<Event>)
    requires CarefulRun(target, files, history) && NoWritePending(After(target, files, history).mem.journal)
    requires OneSpelling(target, After(target, files, history).mem.journal.receipts)
    ensures var s := After(target, files, history);
            ReceiptsMatch(s.mem.journal.receipts, s.mem.journal.superseded, Reading(target, s.files))
  {
    var j := After(target, files, history).mem.journal;
    SettledBooksMatch(target, files, history);
    forall resource | LastDigest(j.receipts, j.superseded, resource).Some?
      ensures LastDigest(j.receipts, j.superseded, resource) == LastOn(target, j.receipts, j.superseded, target(resource))
    {
      var r := HasReceipt(j.receipts, j.superseded, resource);
      OneSpellingOfFile(target, j.receipts, j.superseded, resource);
    }
  }

  /**
   A reconciliation in a careful run that nothing interferes with leaves no write pending, so that
   every file is known again; it answers yes exactly when only reads and complete writes were
   pending.
   */
  lemma ReconciliationSettles(target: Target, files: Files, history: seq<Event>, f: Findings)
    requires CarefulRun(target, files, history) && After(target, files, history).ahead == {}
    requires Finds(target, files, history, f)
    ensures var s, t := After(target, files, history), After(target, files, history + [Classify] + [Apply(f, true)]);
            && CarefulRun(target, files, history + [Classify] + [Apply(f, true)])
            && NoWritePending(t.mem.journal)
            && (forall file :: Current(t.files, file) == Known(target, t.mem, file))
            && (Clean(s.mem.journal, Reading(target, s.files)) <==>
                forall p | p in s.mem.journal.pending :: p.risk == ReadOnly || CompleteWrite(p))
  {
    var s := After(target, files, history);
    RunKeeps(target, files, history);
    ReconcilingRun(target, files, history, f);
    RecoveryLeavesNoWrite(s, f);
    SettledBooksMatch(target, files, history + [Classify] + [Apply(f, true)]);
    AnswersYes(s);
  }

  /** These are the findings on the goal as the run leaves it. */
  ghost predicate Finds(target: Target, files: Files, history: seq<Event>, f: Findings) {
    FindingsOf(After(target, files, history).mem.journal, Reading(target, After(target, files, history).files)) == Some(f)
  }

  lemma ReconcilingRun(target: Target, files: Files, history: seq<Event>, f: Findings)
    requires Finds(target, files, history, f)
    ensures After(target, files, history).target == target
    ensures After(target, files, history + [Classify] + [Apply(f, true)]) == Reconciling(After(target, files, history), f)
    ensures Recoverable(After(target, files, history).mem.journal)
    ensures CarefulRun(target, files, history + [Classify] + [Apply(f, true)])
       <==> CarefulRun(target, files, history) && After(target, files, history).ahead == {}
  {
    PendingWasRecorded(target, files, history);
    ReconcilingStores(After(target, files, history), f);
    OneMoreEvent(target, files, history, Classify);
    OneMoreEvent(target, files, history + [Classify], Apply(f, true));
  }

  /**
   Reconciling after an effect but before its receipt is careful: the call is recovered, its own
   receipt follows as a second one, and the file is still the one the goal knows of.
   */
  lemma ReconciledBeforeReceipt(target: Target, files: Files, history: seq<Event>, f: Findings, p: Intent, receipt: Receipt)
    requires CarefulRun(target, files, history) && After(target, files, history).ahead == {}
    requires Finds(target, files, history, f)
    requires var s := After(target, files, history);
             p in s.awaiting && p in s.done && CompleteWrite(p) && p in s.mem.journal.pending && ReceiptOf(receipt, p, s.done[p])
    ensures var s := After(target, files, history);
            var t := After(target, files, history + [Classify] + [Apply(f, true)] + [RecordReceipt(p, receipt, true)]);
            && ReceiptFor(p) in f.recovered
            && t.mem.journal.receipts == s.mem.journal.receipts + f.recovered + [receipt]
            && NoWritePending(t.mem.journal)
            && (forall file :: Current(t.files, file) == Known(target, t.mem, file))
  {
    RunKeeps(target, files, history);
    ReconcilingRun(target, files, history, f);
    OneMoreEvent(target, files, history + [Classify] + [Apply(f, true)], RecordReceipt(p, receipt, true));
    ReceiptAfterRecovery(After(target, files, history), f, p, receipt);
    SettledBooksMatch(target, files, history + [Classify] + [Apply(f, true)] + [RecordReceipt(p, receipt, true)]);
  }

  // ---- Late effects ----

  /**
   A goal reconciled while the effect of `p` may still come: after that effect the file is
   explained exactly when it already was as `p` leaves it. Otherwise the intent was dropped.
   */
  lemma LateEffectIsUnexplained(target: Target, files: Files, history: seq<Event>, f: Findings, p: Intent)
    requires CarefulRun(target, files, history) && p in After(target, files, history).ahead
    requires Finds(target, files, history, f)
    ensures CompleteWrite(p)
    ensures var s := After(target, files, history);
            var t := After(target, files, history + [Classify] + [Apply(f, true)] + [Effect(p, p.after.value)]);
            && p !in t.mem.journal.pending
            && (!Unexplained(t, FileOf(target, p)) <==> ClassOf(Reading(target, s.files), p) == Some(Recovered))
  {
    RunKeeps(target, files, history);
    ReconcilingRun(target, files, history, f);
    OneMoreEvent(target, files, history + [Classify] + [Apply(f, true)], Effect(p, p.after.value));
    EffectAfterRecovery(After(target, files, history), f, p);
  }

  /** None of the further events may change the file, or what the goal knows of it. */
  ghost predicate Untouched(target: Target, files: Files, history: seq<Event>, more: seq<Event>, file: string) {
    if more == [] then true
    else
      var front, last := more[..|more| - 1], more[|more| - 1];
      Untouched(target, files, history, front, file) && !Touches(After(target, files, history + front), last, file)
  }

  /**
   An unexplained file stays unexplained, over crashes and reconciliations, until there is a
   further effect on it or receipt of it, or the user accepts the files as they are.
   */
  lemma {:induction false} StaysUnexplained(target: Target, files: Files, history: seq<Event>, more: seq<Event>, file: string)
    requires Unexplained(After(target, files, history), file) && Untouched(target, files, history, more, file)
    ensures Unexplained(After(target, files, history + more), file)
    decreases |more|
  {
    if more == [] {
      assert history + more == history;
    } else {
      var front, last := more[..|more| - 1], more[|more| - 1];
      StaysUnexplained(target, files, history, front, file);
      OneMoreEvent(target, files, history + front, last);
      UntouchedStays(After(target, files, history + front), last, file);
      assert history + more == history + front + [last];
    }
  }

  /** The first write of a goal, cancelled while it is under way. */
  function CancelledWrite(p: Intent): seq<Event> {
    [RecordIntent(p, true), ChangeStatus(Blocked, None, Some(AmbiguousToolEffect), true)]
  }

  lemma CancelledWriteIsBlocked(target: Target, p: Intent)
    requires CompleteWrite(p) && p.before.value == ABSENT
    ensures var s := After(target, map[], CancelledWrite(p));
            && CarefulRun(target, map[], CancelledWrite(p)) && s.ahead == {p} && s.target == target && s.files == map[]
            && s.mem.journal == Journal(Blocked, None, Some(AmbiguousToolEffect), [p], [], [], [])
            && s.awaiting == {p} && s.done == map[] && s.used == {p.executionId} && s.found == {} && s.disk == s.mem
  {
    OneMoreEvent(target, map[], [], RecordIntent(p, true));
    assert [] + [RecordIntent(p, true)] == [RecordIntent(p, true)];
    OneMoreEvent(target, map[], [RecordIntent(p, true)], ChangeStatus(Blocked, None, Some(AmbiguousToolEffect), true));
    assert [RecordIntent(p, true)] + [ChangeStatus(Blocked, None, Some(AmbiguousToolEffect), true)] == CancelledWrite(p);
    CancelledAtStart(Start(target, map[]), p);
  }

  /**
   Such a run: a goal is cancelled while its first write is under way, a status query reconciles
   it, the call is given up, and then takes effect. Nothing is pending or under way any more, and
   the file is unexplained.
   */
  lemma LateEffectHappens(target: Target, resource: string) returns (f: Findings)
    ensures var p := Intent("p", "filesystem.write", Write, Some(resource), Some(ABSENT), Some("one"));
            var t := After(target, map[], CancelledWrite(p) + [Classify] + [Apply(f, true)] + [GiveUp(p)] + [Effect(p, "one")]);
            && Finds(target, map[], CancelledWrite(p), f)
            && NoWritePending(t.mem.journal) && t.awaiting == t.ahead == {} && Unexplained(t, target(resource))
  {
    var p := Intent("p", "filesystem.write", Write, Some(resource), Some(ABSENT), Some("one"));
    var h := CancelledWrite(p);
    assert "one"[0] == 'o' && ABSENT[0] == 'a';
    CancelledWriteIsBlocked(target, p);
    var s := After(target, map[], h);
    f := FindingsOf(s.mem.journal, Reading(target, s.files)).value;
    RunKeeps(target, map[], h);
    ReconcilingRun(target, map[], h, f);
    ReconcilingStores(s, f);
    RecoveryLeavesNoWrite(s, f);
    OneMoreEvent(target, map[], h + [Classify] + [Apply(f, true)], GiveUp(p));
    OneMoreEvent(target, map[], h + [Classify] + [Apply(f, true)] + [GiveUp(p)], Effect(p, "one"));
    EffectAfterRecovery(s, f, p);
    GivenUpStays(Reconciling(s, f), p, "one");
  }

  // ---- Stale findings ----

  /**
   Over runs: findings that careful terms led to, stored later; of the files that no pending
   write is left for exactly those stay known for which they have no untrue receipt.
   */
  lemma StaleFindings(target: Target, files: Files, history: seq<Event>, f: Findings, file: string)
    requires CarefulRun(target, files, history) && f in After(target, files, history).found
    requires forall p | p in Applied(After(target, files, history).mem.journal, f).pending :: !Writes(target, p, file)
    ensures var s, t := After(target, files, history), After(target, files, history + [Apply(f, true)]);
            Known(target, t.mem, file) == Current(t.files, file)
            <==> !FalseOn(target, s.files, f.recovered, s.mem.journal.superseded, file)
  {
    RunKeeps(target, files, history);
    OneMoreEvent(target, files, history, Apply(f, true));
    StaleExactly(After(target, files, history), f, file);
  }

  /** A write that took effect before its goal was cancelled, and was given up. */
  function DoneWrite(p: Intent): seq<Event>
    requires CompleteWrite(p)
  {
    CancelledWrite(p) + [Effect(p, p.after.value)] + [GiveUp(p)]
  }

  lemma DoneWriteIsBlocked(target: Target, p: Intent)
    requires CompleteWrite(p) && p.before.value == ABSENT
    ensures var s := After(target, map[], DoneWrite(p));
            && CarefulRun(target, map[], DoneWrite(p)) && s.ahead == s.awaiting == {} && s.target == target
            && s.files == Put(map[], FileOf(target, p), p.after.value)
            && s.mem.journal == Journal(Blocked, None, Some(AmbiguousToolEffect), [p], [], [], [])
            && s.used == {p.executionId} && s.found == {} && s.disk == s.mem
  {
    CancelledWriteIsBlocked(target, p);
    OneMoreEvent(target, map[], CancelledWrite(p), Effect(p, p.after.value));
    EffectStep(After(target, map[], CancelledWrite(p)), p, p.after.value);
    OneMoreEvent(target, map[], CancelledWrite(p) + [Effect(p, p.after.value)], GiveUp(p));
  }

  /**
   Two status queries classify a goal at the same time; the first stores its findings, the goal is
   resumed and writes the file again, and then the second stores the same findings: nothing is
   pending, and the receipts do not match.
   */
  lemma StaleFindingsConflict(target: Target, resource: string) returns (f: Findings)
    ensures var p := Intent("p", "filesystem.write", Write, Some(resource), Some(ABSENT), Some("one"));
            var q := Intent("q", "filesystem.write", Write, Some(resource), Some("one"), Some("two"));
            var h := DoneWrite(p) + [Classify] + [Classify] + [Apply(f, true)] + [ChangeStatus(Queued, None, None, true)]
                     + Written(q);
            var t := After(target, map[], h + [Apply(f, true)]);
            && CarefulRun(target, map[], h) && t.mem.journal.pending == []
            && !ReceiptsMatch(t.mem.journal.receipts, t.mem.journal.superseded, Reading(target, t.files))
  {
    var p := Intent("p", "filesystem.write", Write, Some(resource), Some(ABSENT), Some("one"));
    var q := Intent("q", "filesystem.write", Write, Some(resource), Some("one"), Some("two"));
    assert p.executionId[0] == 'p' && q.executionId[0] == 'q';
    assert "one"[0] == 'o' && "two"[0] == 't' && ABSENT[0] == 'a';
    f := ClassifiedTwice(target, p);
    var h := DoneWrite(p) + [Classify] + [Classify] + [Apply(f, true)] + [ChangeStatus(Queued, None, None, true)];
    WrittenAlone(target, map[], h, q);
    var s := After(target, map[], h + Written(q));
    OneMoreEvent(target, map[], h + Written(q), Apply(f, true));
    PutCurrent(After(target, map[], h).files, target(resource), "two", target(resource));
    OldReceiptConflicts(s, f, p, resource);
  }

  lemma ClassifiedTwice(target: Target, p: Intent) returns (f: Findings)
    requires CompleteWrite(p) && p.before.value == ABSENT
    ensures f.recovered == [ReceiptFor(p)] && !f.ambiguous
    ensures var h := DoneWrite(p) + [Classify] + [Classify] + [Apply(f, true)] + [ChangeStatus(Queued, None, None, true)];
            var s := After(target, map[], h);
            && CarefulRun(target, map[], h) && Idle(s) && s.target == target && f in s.found && s.used == {p.executionId}
            && s.files == Put(map[], FileOf(target, p), p.after.value)
            && s.mem.journal.receipts == [ReceiptFor(p)] && s.mem.journal.superseded == []
  {
    DoneWriteIsBlocked(target, p);
    var h0 := DoneWrite(p);
    var s := After(target, map[], h0);
    PutCurrent(map[], FileOf(target, p), p.after.value, FileOf(target, p));
    FindsOneWrite(target, s.files, p);
    f := FindingsOf(s.mem.journal, Reading(target, s.files)).value;
    SameFindings(target, map[], h0, f);
    OneMoreEvent(target, map[], h0 + [Classify] + [Classify], Apply(f, true));
    OneMoreEvent(target, map[], h0 + [Classify] + [Classify] + [Apply(f, true)], ChangeStatus(Queued, None, None, true));
    AppliedOnce(s.(found := s.found + {f}), f, p);
  }

  /** Classifying the same goal and files twice finds the same. */
  lemma SameFindings(target: Target, files: Files, history: seq<Event>, f: Findings)
    requires CarefulRun(target, files, history) && After(target, files, history).target == target
    requires Finds(target, files, history, f) && After(target, files, history).ahead == {}
    ensures var s := After(target, files, history);
            After(target, files, history + [Classify] + [Classify]) == s.(found := s.found + {f})
    ensures CarefulRun(target, files, history + [Classify] + [Classify])
  {
    OneMoreEvent(target, files, history, Classify);
    OneMoreEvent(target, files, history + [Classify], Classify);
    FindsTheSame(After(target, files, history), f);
  }

  // ---- Two spellings of one file ----

  function Written(p: Intent): seq<Event>
    requires CompleteWrite(p)
  {
    [RecordIntent(p, true), Effect(p, p.after.value), RecordReceipt(p, ReceiptFor(p), true)]
  }

  /** Writing one file under two spellings ends with receipts that do not match it, however careful the run is. */
  lemma TwoSpellingsConflict(target: Target, a: string, b: string)
    requires a != b && target(a) == target(b)
    ensures var p := Intent("p", "filesystem.write", Write, Some(a), Some(ABSENT), Some("one"));
            var q := Intent("q", "filesystem.write", Write, Some(b), Some("one"), Some("two"));
            var h := Written(p) + Written(q);
            var s := After(target, map[], h);
            && CarefulRun(target, map[], h) && s.mem.journal.pending == []
            && !ReceiptsMatch(s.mem.journal.receipts, s.mem.journal.superseded, Reading(target, s.files))
  {
    var p := Intent("p", "filesystem.write", Write, Some(a), Some(ABSENT), Some("one"));
    var q := Intent("q", "filesystem.write", Write, Some(b), Some("one"), Some("two"));
    assert p.executionId[0] == 'p' && q.executionId[0] == 'q';
    assert "one"[0] == 'o' && "two"[0] == 't' && ABSENT[0] == 'a';
    WrittenAlone(target, map[], [], p);
    assert [] + Written(p) == Written(p);
    WrittenAlone(target, map[], Written(p), q);
    var t := After(target, map[], Written(p) + Written(q));
    assert [] + [ReceiptFor(p)] == [ReceiptFor(p)];
    OneMoreReceipt([ReceiptFor(p)], [], ReceiptFor(q), a);
    OneMoreReceipt([], [], ReceiptFor(p), a);
    assert Digest(Reading(target, t.files)(a)) == Some("two");
  }

  lemma WrittenAlone(target: Target, files: Files, history: seq<Event>, p: Intent)
    requires var s := After(target, files, history);
             && s.target == target && Idle(s) && CompleteWrite(p) && p.executionId !in s.used
             && p.before.value == Current(s.files, FileOf(target, p))
    requires CarefulRun(target, files, history)
    ensures var s, t := After(target, files, history), After(target, files, history + Written(p));
            && CarefulRun(target, files, history + Written(p))
            && Idle(t) && t.target == target && t.used == s.used + {p.executionId} && t.found == s.found
            && t.files == Put(s.files, FileOf(target, p), p.after.value)
            && t.mem.journal.receipts == s.mem.journal.receipts + [ReceiptFor(p)]
            && t.mem.journal.superseded == s.mem.journal.superseded
  {
    WriteAlone(After(target, files, history), p);
    ThreeMoreEvents(target, files, history, p);
  }

  lemma ThreeMoreEvents(target: Target, files: Files, history: seq<Event>, p: Intent)
    requires CompleteWrite(p)
    requires CarefulRun(target, files, history) && Careful(After(target, files, history), RecordIntent(p, true))
    ensures CarefulRun(target, files, history + Written(p))
    ensures After(target, files, history + Written(p))
         == Step(Step(Step(After(target, files, history), RecordIntent(p, true)), Effect(p, p.after.value)),
                 RecordReceipt(p, ReceiptFor(p), true))
  {
    var one, two := history + [RecordIntent(p, true)], history + [RecordIntent(p, true), Effect(p, p.after.value)];
    OneMoreEvent(target, files, history, RecordIntent(p, true));
    OneMoreEvent(target, files, one, Effect(p, p.after.value));
    assert one + [Effect(p, p.after.value)] == two;
    OneMoreEvent(target, files, two, RecordReceipt(p, ReceiptFor(p), true));
    assert two + [RecordReceipt(p, ReceiptFor(p), true)] == history + Written(p);
  }

  // ---- Runs that are not careful ----

  /** In any run a pending intent was recorded by one of its events. */
  ghost predicate RecordedAt(target: Target, files: Files, history: seq<Event>, k: nat, p: Intent) {
    k < |history| && history[k] == RecordIntent(p, true) && Enabled(After(target, files, history[..k]), history[k])
  }

  /** The digest of the last effect on a file from event `k` on. */
  ghost function EffectSince(target: Target, files: Files, history: seq<Event>, k: nat, file: string): Option<string>
    requires k <= |history|
  {
    if |history| == k then None
    else
      var front, last := history[..|history| - 1], history[|history| - 1];
      if last.Effect? && Enabled(After(target, files, front), last) && FileOf(target, last.intent) == file
      then Some(last.left)
      else EffectSince(target, files, front, k, file)
  }

  /** There was an effect, and it left neither digest of the write. */
  predicate StrayEffect(since: Option<string>, p: Intent) {
    since.Some? && since != p.after && since != p.before
  }

  /**
   In every run whatsoever a complete write is ambiguous exactly when the last effect on its
   file since it was recorded left a digest that is neither of its own. By `PendingWasRecorded`
   this covers every write that is pending.
   */
  lemma AmbiguousExactly(target: Target, files: Files, history: seq<Event>, k: nat, p: Intent)
    requires RecordedAt(target, files, history, k, p) && CompleteWrite(p)
    ensures ClassOf(Reading(target, After(target, files, history).files), p) == Some(Ambiguous)
       <==> StrayEffect(EffectSince(target, files, history, k + 1, FileOf(target, p)), p)
  {
    FileSince(target, files, history, k, p);
    ClassByFile(target, After(target, files, history).files, p);
  }

  /** A failed write that is tried again with other contents becomes ambiguous. */
  lemma RetriedWriteIsAmbiguous(target: Target, resource: string)
    ensures var p := Intent("p", "filesystem.write", Write, Some(resource), Some(ABSENT), Some("one"));
            var q := Intent("q", "filesystem.write", Write, Some(resource), Some(ABSENT), Some("two"));
            var s := After(target, map[], [RecordIntent(p, true), GiveUp(p), Settle(p), RecordIntent(q, true), Effect(q, "two")]);
            p in s.mem.journal.pending && ClassOf(Reading(target, s.files), p) == Some(Ambiguous)
  {
    var p := Intent("p", "filesystem.write", Write, Some(resource), Some(ABSENT), Some("one"));
    var q := Intent("q", "filesystem.write", Write, Some(resource), Some(ABSENT), Some("two"));
    assert p.executionId[0] == 'p' && q.executionId[0] == 'q';
    assert "one"[0] == 'o' && "two"[0] == 't' && ABSENT[0] == 'a';
    FailedWrite(target, p);
    var failed := [RecordIntent(p, true), GiveUp(p), Settle(p)];
    var u := After(target, map[], failed);
    IntentStep(u, q);
    OneMoreEvent(target, map[], failed, RecordIntent(q, true));
    OneMoreEvent(target, map[], failed + [RecordIntent(q, true)], Effect(q, "two"));
    assert failed + [RecordIntent(q, true)] + [Effect(q, "two")]
        == [RecordIntent(p, true), GiveUp(p), Settle(p), RecordIntent(q, true), Effect(q, "two")];
    var v := After(target, map[], failed + [RecordIntent(q, true)]);
    assert v.mem.journal.pending == [p, q];
    PutCurrent(v.files, target(resource), "two", target(resource));
  }

  /** A first write that fails leaves its intent pending and the file as it was. */
  lemma FailedWrite(target: Target, p: Intent)
    requires CompleteWrite(p) && p.before.value == ABSENT
    ensures var s := After(target, map[], [RecordIntent(p, true), GiveUp(p), Settle(p)]);
            && s.mem.journal.pending == [p] && s.mem.journal.status.Queued? && s.files == map[] && s.target == target
            && s.used == {p.executionId} && s.ahead == {}
  {
    OneMoreEvent(target, map[], [], RecordIntent(p, true));
    IntentStep(Start(target, map[]), p);
    OneMoreEvent(target, map[], [RecordIntent(p, true)], GiveUp(p));
    OneMoreEvent(target, map[], [RecordIntent(p, true), GiveUp(p)], Settle(p));
    assert [] + [RecordIntent(p, true)] == [RecordIntent(p, true)];
    assert [RecordIntent(p, true)] + [GiveUp(p)] == [RecordIntent(p, true), GiveUp(p)];
    assert [RecordIntent(p, true), GiveUp(p)] + [Settle(p)] == [RecordIntent(p, true), GiveUp(p), Settle(p)];
    assert After(target, map[], [RecordIntent(p, true)]).mem.journal.pending == [p];
  }

  /** A refused resume supersedes receipts in memory only; the disk still has them. */
  lemma RefusedResumeIsForgotten(target: Target, files: Files, history: seq<Event>)
    requires Enabled(After(target, files, history), AcceptWorkspace(false))
    ensures var s := After(target, files, history + [AcceptWorkspace(false), Crash]);
            && s.mem == s.disk == Restarted(After(target, files, history).disk)
            && s.files == After(target, files, history).files
  {
    var one := history + [AcceptWorkspace(false)];
    var two := history + [AcceptWorkspace(false), Crash];
    assert one[..|history|] == history && two[..|one|] == one;
  }

  // ---- Details ----

  lemma OneMoreEvent(target: Target, files: Files, history: seq<Event>, event: Event)
    ensures After(target, files, history + [event]) == Step(After(target, files, history), event)
    ensures CarefulRun(target, files, history + [event])
       <==> && CarefulRun(target, files, history)
            && (Enabled(After(target, files, history), event) ==> Careful(After(target, files, history), event))
  {
    assert (history + [event])[..|history|] == history;
  }

  /** What a pending intent of any run has behind it. */
  ghost predicate Recorded(target: Target, files: Files, history: seq<Event>, p: Intent) {
    exists k: nat :: RecordedAt(target, files, history, k, p)
  }

  lemma StillRecorded(target: Target, files: Files, history: seq<Event>, p: Intent)
    requires history != [] && Recorded(target, files, history[..|history| - 1], p)
    ensures Recorded(target, files, history, p)
  {
    var front := history[..|history| - 1];
    var k: nat :| RecordedAt(target, files, front, k, p);
    assert front[..k] == history[..k];
    assert RecordedAt(target, files, history, k, p);
  }

  lemma {:induction false} PendingWasRecorded(target: Target, files: Files, history: seq<Event>)
    ensures var s := After(target, files, history);
            && s.target == target && s.mem.journal.pending == s.disk.journal.pending
            && forall p | p in s.mem.journal.pending :: Recorded(target, files, history, p)
  {
    if history != [] {
      PendingWasRecorded(target, files, history[..|history| - 1]);
      SamePending(After(target, files, history[..|history| - 1]), history[|history| - 1]);
      forall p | p in After(target, files, history).mem.journal.pending
        ensures Recorded(target, files, history, p)
      {
        PendingStep(target, files, history, p);
      }
    }
  }

  lemma PendingStep(target: Target, files: Files, history: seq<Event>, p: Intent)
    requires history != [] && p in After(target, files, history).mem.journal.pending
    requires var s := After(target, files, history[..|history| - 1]);
             s.mem.journal.pending == s.disk.journal.pending
             && (p in s.mem.journal.pending ==> Recorded(target, files, history[..|history| - 1], p))
    ensures Recorded(target, files, history, p)
  {
    var front, last := history[..|history| - 1], history[|history| - 1];
    var s := After(target, files, front);
    PendingGrows(s, last, p);
    if p in s.mem.journal.pending {
      StillRecorded(target, files, history, p);
    } else {
      assert RecordedAt(target, files, history, |front|, p);
    }
  }

  /** Since a write was recorded its file is as the last effect left it, or as the write found it. */
  lemma {:induction false} FileSince(target: Target, files: Files, history: seq<Event>, k: nat, p: Intent)
    requires RecordedAt(target, files, history, k, p) && CompleteWrite(p)
    ensures var s := After(target, files, history);
            var since := EffectSince(target, files, history, k + 1, FileOf(target, p));
            && s.target == target
            && Current(s.files, FileOf(target, p)) == if since.Some? then since.value else p.before.value
    decreases |history|
  {
    var front, last := history[..|history| - 1], history[|history| - 1];
    PendingWasRecorded(target, files, front);
    var s := After(target, files, front);
    if k == |front| {
      assert front == history[..k];
    } else {
      assert front[..k] == history[..k];
      FileSince(target, files, front, k, p);
      if last.Effect? && Enabled(s, last) {
        PutCurrent(s.files, FileOf(target, last.intent), last.left, FileOf(target, p));
      } else {
        OnlyEffectsWrite(s, last);
      }
    }
  }
}
