/**
 A goal with its one runner, step by step: the runner reads the goal, works on it and commits, and
 the user, the tools and the process interfere. A step is one mutation of the goal or one read of
 it, and what a step keeps of a state is proved here; whole runs are the subject of `GoalRuns`.

 The runner holds on to goals that it has read, so that a commit may meet another goal than the
 one it was planned on.
 */
module GoalSteps {
  import opened AgentGoal
  import opened GoalStatus
  import opened Options
  import opened SliceAccounting
  import opened ToolJournal

  type Files = string -> FileState

  /** Where the runner is; `Looked`, `Handling` and `Deciding` hold the goal as it was read. */
  datatype Runner =
    | Idle
    | AtHead
    | Looked(seen: Goal)
    | InSlice
    | CandidateSaved(exceeded: bool, pauseRequested: bool)
    | Completing
    | Handling(seen: Goal)
    | Deciding(seen: Goal, verification: Option<Decision>, exceeded: bool)

  /**
   `charges` counts the verifications paid for each candidate; numbers from `next` on are unused.
   `found` are the findings of the reconciliations of this process, which may be stored at any
   later time, and `saved` the superseded ids on disk, the one part of a goal that a change may
   leave different in memory.
   */
  datatype State = State(goal: Goal, runner: Runner, charges: map<nat, nat>, next: nat, files: Files,
                         found: set<Findings>, saved: seq<string>)

  /**
   The user pauses, cancels, steers, resumes and extends the goal, tools write its journal and
   ask for approval, files change, and the process may end at any time. Each event is one
   mutation of the goal, or one read of it by the runner; one that cannot happen in a state
   changes nothing.
   */
  datatype Event =
    | Pause
    | Cancel
    | Steer
    | Resume(refused: bool)
    | Extend(launched: bool)
    | AwaitApproval
    | DecideApproval
    | EndProcess
    | Classify
    | Apply(findings: Findings)
    | FilesChange(files: Files)
    | RecordIntent(intent: Intent)
    | RecordReceipt(id: string, receipt: Receipt)
    | RecordNoEffect(id: string)
    | HeadStops
    | HeadLooks
    | HeadFindsIntents
    | HeadFindsConflict(digestChanged: bool)
    | HeadTakesUp
    | StoreCheckpoint(work: Work, slice: Slice, boundary: Boundary, exceeded: bool)
    | StoreCandidate(responses: nat, usedTools: bool, exceeded: bool)
    | AfterCandidate
    | ReadCandidate
    | VerifierTooDear
    | Verify(decision: Decision, exceeded: bool)
    | NoVerification
    | Decide(again: bool)
    | Fail(error: RunError)

  /** The receipts of a goal match the files. */
  ghost predicate Matches(g: Goal, files: Files) {
    ReceiptsMatch(g.receipts, g.superseded, files)
  }

  /** The scan of the receipts ends with an answer. */
  ghost predicate ScanAnswers(g: Goal, files: Files) {
    forall k: nat | FirstProblem(g.receipts, g.superseded, files, k) :: Digest(files(g.receipts[k].resource)).Some?
  }

  predicate NeedsVerification(g: Goal) {
    RequiresVerifier(g) && g.candidate.value.verification.None?
  }

  ghost predicate Enabled(s: State, event: Event) {
    var g, r := s.goal, s.runner;
    match event
    case Resume(_) =>
      r.Idle? && !Terminal(g.status) && (Recoverable(JournalOf(g)) ==> g.status.Paused? && g.pending == [])
    case AwaitApproval => r.InSlice?
    case DecideApproval => r.InSlice?
    case Classify => AllClassified(s.files, g.pending) && FindingsOf(JournalOf(g), s.files).Some?
    case Apply(findings) => findings in s.found
    case RecordIntent(_) => r.InSlice? && !Terminal(g.status)
    case RecordReceipt(_, _) => r.InSlice? && !Terminal(g.status)
    case RecordNoEffect(_) => r.InSlice? && !Terminal(g.status)
    case HeadStops => r.AtHead? && Resting(g.status)
    case HeadLooks => r.AtHead? && !Resting(g.status)
    case HeadFindsIntents => r.Looked? && r.seen.pending != []
    case HeadFindsConflict(digestChanged) =>
      && r.Looked? && r.seen.pending == []
      && ((digestChanged && HasEffects(r.seen.receipts)) || (ScanAnswers(r.seen, s.files) && !Matches(r.seen, s.files)))
    case HeadTakesUp => r.Looked? && r.seen.pending == [] && Matches(r.seen, s.files)
    case StoreCheckpoint(_, _, _, _) => r.InSlice?
    case StoreCandidate(_, _, _) => r.InSlice?
    case AfterCandidate => r.CandidateSaved?
    case ReadCandidate => r.Completing? && g.candidate.Some? && ScanAnswers(g, s.files)
    case VerifierTooDear => r.Handling? && NeedsVerification(r.seen)
    case Verify(_, _) => r.Handling? && NeedsVerification(r.seen)
    case NoVerification => r.Handling? && !NeedsVerification(r.seen)
    case Decide(_) => r.Deciding?
    case Fail(_) => !r.Idle?
    case _ => true
  }

  function Charge(charges: map<nat, nat>, number: nat): nat {
    if number in charges then charges[number] else 0
  }

  /** The runner goes on with a goal that it leaves in `g`. */
  function GoOn(g: Goal): Runner {
    if g.status.Paused? || g.status.Blocked? then Idle else AtHead
  }

  ghost function GoalAfter(s: State, event: Event): Goal
    requires Enabled(s, event)
  {
    var g, r := s.goal, s.runner;
    match event
    case Pause => PauseRequested(g)
    case Cancel => CancelRequested(g)
    case Steer => Steered(g)
    case Resume(refused) => Resumed(g, refused)
    case Extend(_) => Extended(g)
    case AwaitApproval => ApprovalAwaited(g)
    case DecideApproval => ApprovalDecided(g)
    case EndProcess => RestartPrepared(g.(superseded := s.saved))
    case Apply(findings) => FindingsApplied(g, findings)
    case RecordIntent(intent) => g.(pending := g.pending + [intent])
    case RecordReceipt(id, receipt) => g.(pending := Retain(g.pending, {id}), receipts := g.receipts + [receipt])
    case RecordNoEffect(id) => g.(pending := Retain(g.pending, {id}))
    case HeadFindsIntents => BlockedFor(g, AmbiguousToolEffect)
    case HeadFindsConflict(_) => BlockedFor(g, WorkspaceConflict)
    case HeadTakesUp => TakenUp(g)
    case StoreCheckpoint(work, slice, boundary, exceeded) => CheckpointStored(g, work, slice, boundary, exceeded)
    case StoreCandidate(responses, usedTools, _) => CandidateStored(g, Candidate(s.next, responses, usedTools, None))
    case AfterCandidate => if r.exceeded then PausedFor(g, BudgetPause) else g
    case ReadCandidate => if Matches(g, s.files) then g else BlockedFor(g, WorkspaceConflict)
    case VerifierTooDear => PausedFor(g, BudgetPause)
    case Verify(decision, _) => VerificationStored(g, decision)
    case Decide(again) =>
      if r.exceeded then PausedFor(g, BudgetPause)
      else if r.verification == Some(Continue) then if again then CandidateDropped(g) else BlockedFor(g, VerifierRejected)
      else if r.verification == Some(Rejected) then BlockedFor(g, VerifierRejected)
      else ResultCommitted(g)
    case Fail(error) => StoppedWith(g, error)
    case _ => g
  }

  ghost function RunnerAfter(s: State, event: Event): Runner
    requires Enabled(s, event)
  {
    var g, r := s.goal, s.runner;
    match event
    case Resume(refused) => if refused then Idle else AtHead
    case Extend(launched) => if launched && r.Idle? && Extended(g) != g then AtHead else r
    case HeadLooks => Looked(g)
    case HeadTakesUp => if g.candidate.Some? then Completing else InSlice
    case StoreCheckpoint(_, _, _, exceeded) => if exceeded then Idle else GoOn(GoalAfter(s, event))
    case StoreCandidate(_, _, exceeded) => CandidateSaved(exceeded, g.status.Pausing?)
    case AfterCandidate => if r.exceeded || r.pauseRequested then Idle else Completing
    case ReadCandidate => if Matches(g, s.files) then Handling(g) else Idle
    case Verify(decision, exceeded) => if g.candidate.Some? then Deciding(r.seen, Some(decision), exceeded) else Idle
    case NoVerification =>
      Deciding(r.seen, if r.seen.candidate.Some? then r.seen.candidate.value.verification else None, false)
    case Decide(again) => if !r.exceeded && r.verification == Some(Continue) && again then AtHead else Idle
    case EndProcess => Idle
    case HeadStops => Idle
    case HeadFindsIntents => Idle
    case HeadFindsConflict(_) => Idle
    case VerifierTooDear => Idle
    case Fail(_) => Idle
    case _ => r
  }

  /** The event ends with the goal in memory saved. */
  ghost predicate Saves(s: State, event: Event)
    requires Enabled(s, event)
  {
    match event
    case Pause => !Terminal(s.goal.status)
    case Cancel => !Terminal(s.goal.status)
    case Steer => !Terminal(s.goal.status)
    case Resume(refused) => !refused
    case FilesChange(_) => false
    case EndProcess => false
    case Classify => false
    case HeadStops => false
    case HeadLooks => false
    case AfterCandidate => s.runner.exceeded || s.runner.pauseRequested
    case ReadCandidate => !Matches(s.goal, s.files)
    case Verify(_, _) => s.goal.candidate.Some?
    case NoVerification => false
    case _ => true
  }

  ghost function Happen(s: State, event: Event): State
    requires Enabled(s, event)
  {
    var goal := GoalAfter(s, event);
    State(goal, RunnerAfter(s, event),
          if event.Verify? then
            var number := s.runner.seen.candidate.value.number;
            s.charges[number := Charge(s.charges, number) + 1]
          else s.charges,
          if event.StoreCandidate? then s.next + 1 else s.next,
          if event.FilesChange? then event.files else s.files,
          match event
            case EndProcess => {}
            case Classify => s.found + {FindingsOf(JournalOf(s.goal), s.files).value}
            case _ => s.found,
          if Saves(s, event) then goal.superseded else s.saved)
  }

  ghost function Step(s: State, event: Event): State {
    if Enabled(s, event) then Happen(s, event) else s
  }

  function NewSlice(): Slice {
    Slice(Nothing(), 0, 0, 0, 0, 0)
  }

  function Created(files: Files): State {
    var goal := Goal(Queued, None, None, None, Work(false, false), NewSlice(), 0, 0, [], [], []);
    State(goal, AtHead, map[], 0, files, {}, [])
  }

  /** What the runner does, as opposed to its user, its tools and the process. */
  predicate OfRunner(event: Event) {
    || event.HeadStops? || event.HeadLooks? || event.HeadFindsIntents? || event.HeadFindsConflict? || event.HeadTakesUp?
    || event.StoreCheckpoint? || event.StoreCandidate? || event.AfterCandidate? || event.ReadCandidate?
    || event.VerifierTooDear? || event.Verify? || event.NoVerification? || event.Decide? || event.Fail?
  }

  // ---- Reasons ----

  lemma RunnerKeepsReasons(s: State, event: Event)
    requires ReasonsGiven(s.goal) && OfRunner(event) && Enabled(s, event)
    ensures ReasonsGiven(GoalAfter(s, event))
  {
  }

  lemma OthersKeepReasons(s: State, event: Event)
    requires ReasonsGiven(s.goal) && !OfRunner(event) && Enabled(s, event)
    ensures ReasonsGiven(GoalAfter(s, event))
  {
  }

  lemma StepKeepsReasons(s: State, event: Event)
    requires ReasonsGiven(s.goal)
    ensures ReasonsGiven(Step(s, event).goal)
  {
    if Enabled(s, event) {
      if OfRunner(event) {
        RunnerKeepsReasons(s, event);
      } else {
        OthersKeepReasons(s, event);
      }
    }
  }

  // ---- Pausing ----

  predicate Commits(event: Event) {
    event.StoreCheckpoint? || event.StoreCandidate?
  }

  /** The events that may put a goal whose pause is requested back to work. */
  predicate LosesPause(event: Event) {
    event.HeadTakesUp? || event.AwaitApproval? || (event.Resume? && !event.refused)
  }

  /** The pause is requested, or has already led to a rest from which only a resume starts again. */
  predicate PauseStands(g: Goal) {
    g.status.Pausing? || g.status.Blocked? || g.status.Cancelled? || (g.status.Paused? && g.pauseReason != Some(BudgetPause))
  }

  lemma PauseStandsOn(s: State, event: Event)
    requires !LosesPause(event) && !Commits(event) && Step(s, event).runner.InSlice?
    ensures s.runner.InSlice?
    ensures PauseStands(s.goal) ==> PauseStands(Step(s, event).goal)
    ensures PauseStands(s.goal) && !s.goal.status.Cancelled? && event != Cancel ==> !Step(s, event).goal.status.Cancelled?
  {
    if Enabled(s, event) {
      if OfRunner(event) {
        NoneInSlice(s, event);
      } else {
        PauseStandsAmong(s, event);
      }
    }
  }

  /** In a slice the runner does nothing but commit. */
  lemma NoneInSlice(s: State, event: Event)
    requires OfRunner(event) && Enabled(s, event) && !LosesPause(event) && !Commits(event)
    ensures !Happen(s, event).runner.InSlice?
  {
  }

  lemma PauseStandsAmong(s: State, event: Event)
    requires Enabled(s, event) && !OfRunner(event) && !LosesPause(event) && Happen(s, event).runner.InSlice?
    ensures s.runner.InSlice?
    ensures PauseStands(s.goal) ==> PauseStands(Happen(s, event).goal)
    ensures PauseStands(s.goal) && !s.goal.status.Cancelled? && event != Cancel ==> !Happen(s, event).goal.status.Cancelled?
  {
  }

  lemma CommitRests(s: State, commit: Event)
    requires PauseStands(s.goal) && Commits(commit) && Enabled(s, commit)
    ensures Resting(Step(s, commit).goal.status)
    ensures !s.goal.status.Cancelled? ==> Step(s, commit).goal.status.Paused? || Step(s, commit).goal.status.Blocked?
  {
  }

  lemma PausedAndTakenUp(s: State)
    requires s.runner.Looked? && s.runner.seen.pending == [] && Matches(s.runner.seen, s.files) && !Terminal(s.goal.status)
    ensures Step(s, Pause).goal.status.Pausing? && Step(Step(s, Pause), HeadTakesUp).goal.status.Running?
  {
  }

  // ---- Finished goals ----

  /** Nobody works on a completed goal, and the disk has it. */
  ghost predicate CompletedIsLeft(s: State) {
    s.goal.status.Completed? ==> s.runner.Idle? && NothingOpen(s.goal) && s.saved == s.goal.superseded
  }

  /** These findings leave a trace on a goal that has no intents. */
  predicate Tells(f: Findings) {
    f.recovered != [] || f.ambiguous || f.unblocks
  }

  lemma StepLeavesCompleted(s: State, event: Event)
    requires CompletedIsLeft(s)
    ensures CompletedIsLeft(Step(s, event))
    ensures s.goal.status.Completed? ==>
              (Step(s, event).goal != s.goal <==> event.Apply? && event.findings in s.found && Tells(event.findings))
  {
    if Enabled(s, event) {
      if s.goal.status.Completed? {
        assert !OfRunner(event);
        CompletedStays(s, event);
      } else {
        CompletedIsNew(s, event);
      }
    }
  }

  lemma CompletedStays(s: State, event: Event)
    requires CompletedIsLeft(s) && s.goal.status.Completed? && Enabled(s, event) && !OfRunner(event)
    ensures CompletedIsLeft(Happen(s, event))
    ensures GoalAfter(s, event) != s.goal <==> event.Apply? && Tells(event.findings)
  {
    if event.Apply? {
      assert Retain([], event.findings.resolved) == [];
    }
  }

  lemma CompletedIsNew(s: State, event: Event)
    requires !s.goal.status.Completed? && Enabled(s, event)
    ensures CompletedIsLeft(Happen(s, event))
  {
  }

  lemma StepIsStored(s: State, work: Work, slice: Slice)
    requires s.runner == InSlice && s.goal.status.Running? && s.saved == s.goal.superseded
    ensures Step(s, StoreCheckpoint(work, slice, AtomicStep, false))
         == s.(goal := s.goal.(work := work, slice := slice), runner := AtHead)
  {
  }

  lemma HeadLooksOnly(s: State)
    requires s.runner == AtHead && !Resting(s.goal.status)
    ensures Step(s, HeadLooks) == s.(runner := Looked(s.goal))
  {
  }

  // ---- One charge per candidate ----

  ghost predicate Unpaid(s: State, candidate: Candidate) {
    candidate.number < s.next && (candidate.verification.None? ==> Charge(s.charges, candidate.number) == 0)
  }

  ghost predicate ChargesOk(s: State) {
    && (forall n | n in s.charges :: n < s.next && s.charges[n] <= 1)
    && (s.goal.candidate.Some? ==> Unpaid(s, s.goal.candidate.value))
    && HandledOk(s)
  }

  lemma StepKeepsCounts(s: State, event: Event)
    requires ChargesOk(s)
    ensures forall n | n in Step(s, event).charges :: n < Step(s, event).next && Step(s, event).charges[n] <= 1
  {
  }

  lemma StepCharges(s: State, event: Event, number: nat)
    ensures Charge(Step(s, event).charges, number)
         == Charge(s.charges, number)
            + (if event.Verify? && Enabled(s, event) && s.runner.seen.candidate.value.number == number then 1 else 0)
  {
  }

  lemma StepKeepsUnpaid(s: State, event: Event)
    requires ChargesOk(s)
    ensures var t := Step(s, event); t.goal.candidate.Some? ==> Unpaid(t, t.goal.candidate.value)
  {
    if Enabled(s, event) {
      if event.StoreCandidate? {
        NewIsUnpaid(s, event);
      } else if event.Verify? {
        VerifiedIsPaid(s, event);
      } else {
        SameCandidate(s, event);
      }
    }
  }

  lemma NewIsUnpaid(s: State, event: Event)
    requires ChargesOk(s) && event.StoreCandidate? && Enabled(s, event)
    ensures var t := Happen(s, event); t.goal.candidate.Some? ==> Unpaid(t, t.goal.candidate.value)
  {
  }

  lemma VerifiedIsPaid(s: State, event: Event)
    requires ChargesOk(s) && event.Verify? && Enabled(s, event)
    ensures var t := Happen(s, event); t.goal.candidate.Some? ==> Unpaid(t, t.goal.candidate.value)
  {
  }

  lemma SameCandidate(s: State, event: Event)
    requires Enabled(s, event) && !event.StoreCandidate? && !event.Verify?
    ensures var t := Happen(s, event);
            && (t.goal.candidate.Some? ==> t.goal.candidate == s.goal.candidate)
            && t.charges == s.charges && t.next == s.next
  {
  }

  ghost predicate HandledOk(s: State) {
    s.runner.Handling? ==>
      && s.runner.seen.candidate.Some?
      && Unpaid(s, s.runner.seen.candidate.value)
      && (s.goal.candidate.Some? ==> s.goal.candidate.value.number == s.runner.seen.candidate.value.number)
  }

  lemma ReadIsHandled(s: State)
    requires ChargesOk(s) && Enabled(s, ReadCandidate)
    ensures HandledOk(Happen(s, ReadCandidate))
  {
  }

  lemma HandlingStays(s: State, event: Event)
    requires ChargesOk(s) && Enabled(s, event) && event != ReadCandidate
    ensures HandledOk(Happen(s, event))
  {
  }

  lemma StepKeepsHandled(s: State, event: Event)
    requires ChargesOk(s)
    ensures HandledOk(Step(s, event))
  {
    if Enabled(s, event) {
      if event == ReadCandidate {
        ReadIsHandled(s);
      } else {
        HandlingStays(s, event);
      }
    }
  }

  lemma StepKeepsCharges(s: State, event: Event)
    requires ChargesOk(s)
    ensures ChargesOk(Step(s, event))
  {
    StepKeepsCounts(s, event);
    StepKeepsUnpaid(s, event);
    StepKeepsHandled(s, event);
  }

  // ---- Completion ----

  /** Where a candidate of the goal comes from. */
  lemma CandidateStep(s: State, event: Event)
    ensures var t := Step(s, event);
            t.goal.candidate.Some? ==>
              || t.goal.candidate == s.goal.candidate
              || t.goal.candidate.value.verification.None?
              || (event.Verify? && Enabled(s, event) && s.goal.candidate.Some?
                  && t.goal.candidate.value == s.goal.candidate.value.(verification := Some(event.decision)))
  {
  }

  /** Where a runner that holds a goal it read comes from. */
  lemma RunnerStep(s: State, event: Event)
    ensures var r, t := s.runner, Step(s, event).runner;
            && (t.Handling? ==> r == t || (event == ReadCandidate && Enabled(s, event) && t.seen == s.goal && Matches(s.goal, s.files)))
            && (t.Deciding? ==> r == t || (r.Handling? && r.seen == t.seen && Enabled(s, event)
                                           && if event.Verify? then t.verification == Some(event.decision)
                                              else event == NoVerification && !NeedsVerification(t.seen)
                                                   && (t.seen.candidate.Some? ==> t.verification == t.seen.candidate.value.verification)))
  {
  }

  /** The event completes a goal that is not completed. */
  ghost predicate Completes(s: State, event: Event) {
    !s.goal.status.Completed? && Step(s, event).goal.status.Completed?
  }

  lemma CompletedByDecision(s: State, event: Event)
    requires !s.goal.status.Completed? && Step(s, event).goal.status.Completed?
    ensures event.Decide? && s.runner.Deciding? && !s.runner.exceeded
    ensures s.runner.verification.None? || s.runner.verification == Some(Accepted)
  {
    if s.runner.Deciding? && s.runner.verification.Some? {
      match s.runner.verification.value
      case Accepted =>
      case Continue =>
      case Rejected =>
    }
  }

  lemma HandlingEnables(s: State, decision: Decision, exceeded: bool)
    requires s.runner.Handling? && s.runner.seen.candidate.Some?
    ensures Enabled(s, Verify(decision, exceeded))
       <==> s.runner.seen.candidate.value.verification.None? && RequiresVerifier(s.runner.seen)
    ensures Enabled(s, NoVerification)
       <==> s.runner.seen.candidate.value.verification.Some? || !RequiresVerifier(s.runner.seen)
  {
  }

  lemma UnverifiedCompletes(s: State, again: bool)
    requires s.runner.Handling? && s.runner.seen.candidate.Some? && s.runner.seen.candidate.value.verification.None?
    requires !RequiresVerifier(s.runner.seen) && !Terminal(s.goal.status)
    ensures Step(Step(s, NoVerification), Decide(again)).goal.status.Completed?
  {
  }

  // ---- Late steering ----

  function TakenBy(s: State, event: Event): nat {
    if event.Steer? && !Terminal(s.goal.status) then 1 else 0
  }

  lemma StepCountsSteering(s: State, event: Event)
    ensures Step(s, event).goal.steering == s.goal.steering + TakenBy(s, event)
  {
    if Enabled(s, event) && OfRunner(event) {
      RunnerKeepsSteering(s, event);
    }
  }

  lemma RunnerKeepsSteering(s: State, event: Event)
    requires Enabled(s, event) && OfRunner(event)
    ensures GoalAfter(s, event).steering == s.goal.steering
  {
  }

  /** A goal that the runner is about to look at, and that has done nothing a verifier would have to see. */
  predicate Untried(s: State) {
    var g := s.goal;
    && s.runner == AtHead && !Resting(g.status)
    && g.pending == [] && g.receipts == [] && g.candidate.None?
    && !RequiresVerifier(g.(candidate := Some(Candidate(s.next, 0, false, None))))
  }

  lemma CandidateIsStored(s: State)
    requires Untried(s)
    ensures var t := Step(Step(Step(s, HeadLooks), HeadTakesUp), StoreCandidate(0, false, false));
            && t.goal == TakenUp(s.goal).(candidate := Some(Candidate(s.next, 0, false, None)))
            && t.runner == CandidateSaved(false, false) && t.found == s.found
  {
    HeadLooksOnly(s);
    NoReceiptsMatch(s.goal, s.files);
  }

  lemma NoReceiptsMatch(g: Goal, files: Files)
    requires g.receipts == []
    ensures Matches(g, files) && ScanAnswers(g, files)
  {
  }

  lemma CandidateIsRead(s: State)
    requires s.runner == CandidateSaved(false, false) && s.goal.candidate.Some? && s.goal.receipts == []
    requires !RequiresVerifier(s.goal) && s.goal.candidate.value.verification.None?
    ensures var t := Step(Step(Step(s, AfterCandidate), ReadCandidate), NoVerification);
            t.goal == s.goal && t.runner == Deciding(s.goal, None, false) && t.found == s.found
  {
    NoReceiptsMatch(s.goal, s.files);
    GoesOnToComplete(s);
  }

  lemma GoesOnToComplete(s: State)
    requires s.runner == CandidateSaved(false, false)
    ensures Step(s, AfterCandidate).(saved := []) == s.(runner := Completing, saved := [])
  {
  }

  lemma SteeredAndDecided(s: State)
    requires s.runner.Deciding? && s.runner.verification.None? && !s.runner.exceeded && s.goal.status.Running?
    ensures var t := Step(Step(s, Steer), Decide(false)).goal; t.status.Completed? && t.steering == s.goal.steering + 1
  {
  }

  // ---- A completed goal that is opened again ----

  /** The write was not done. */
  predicate Undone(files: Files, p: Intent) {
    p.risk == Write && ClassOf(files, p) == Some(Retry)
  }

  lemma UndoneIsFound(files: Files, p: Intent)
    requires Undone(files, p)
    ensures var f := FindingsOf(Journal(Blocked, None, Some(AmbiguousToolEffect), [p], [], [], []), files);
            && AllClassified(files, [p])
            && f.Some? && f.value.recovered == [] && p.executionId in f.value.resolved && !f.value.ambiguous && f.value.unblocks
  {
    assert [p][..0] == [];
    assert RecoveredReceipts(files, [p]) == [];
    assert Select(files, [], Ambiguous) == [] && Select(files, [p], Ambiguous) == [];
    assert p in [p] && ResolvedIn(files, [p], p.executionId);
    ResolvedExactly(files, [p], p.executionId);
  }

  lemma CancelledInWrite(s: State, p: Intent)
    requires s.runner == InSlice && s.goal.status.Running? && s.goal.pending == [] && p.risk == Write
    requires s.goal.pauseReason.None?
    ensures var t := Step(Step(Step(s, RecordIntent(p)), Cancel), Fail(RunCancelled));
            && t.goal == s.goal.(pending := [p], status := Blocked, blockReason := Some(AmbiguousToolEffect))
            && t.runner == Idle && t.found == s.found && t.files == s.files && t.next == s.next
  {
    assert [] + [p] == [p] && p in [p];
    var recorded := Step(s, RecordIntent(p));
    assert recorded.goal == s.goal.(pending := [p]) && recorded.runner == InSlice;
    CancelledBlocks(recorded, p);
  }

  lemma CancelledBlocks(s: State, p: Intent)
    requires s.runner == InSlice && s.goal.status.Running? && s.goal.pending == [p] && p.risk == Write
    ensures var t := Step(Step(s, Cancel), Fail(RunCancelled));
            && t.goal == s.goal.(status := Blocked, blockReason := Some(AmbiguousToolEffect))
            && t.runner == Idle && t.found == s.found && t.files == s.files && t.next == s.next
  {
    assert p in [p];
  }

  lemma ClassifiedAndResumed(s: State, f: Findings, p: Intent)
    requires s.runner == Idle && s.found == {} && Undone(s.files, p) && s.goal.receipts == [] && s.goal.superseded == []
    requires s.goal.status.Blocked? && s.goal.pauseReason.None? && s.goal.blockReason == Some(AmbiguousToolEffect)
    requires s.goal.pending == [p] && FindingsOf(JournalOf(s.goal), s.files) == Some(f)
    ensures var t := Step(Step(Step(Step(s, Classify), Classify), Apply(f)), Resume(false));
            && t.goal == s.goal.(pending := [], status := Queued, blockReason := None)
            && t.runner == AtHead && t.found == {f} && t.next == s.next
  {
    UndoneIsFound(s.files, p);
    ClassifyOnly(s, f);
    ClassifyOnly(Step(s, Classify), f);
    assert s.found + {f} + {f} == {f};
    AppliedAndResumed(s.(found := {f}), f, p);
  }

  lemma AppliedAndResumed(s: State, f: Findings, p: Intent)
    requires s.runner == Idle && f in s.found && s.goal.pending == [p] && s.goal.status.Blocked? && s.goal.pauseReason.None?
    requires f.recovered == [] && p.executionId in f.resolved && !f.ambiguous && f.unblocks
    ensures var t := Step(Step(s, Apply(f)), Resume(false));
            && t.goal == s.goal.(pending := [], status := Queued, blockReason := None)
            && t.runner == AtHead && t.found == s.found && t.next == s.next
  {
    assert [p][..0] == [] && Retain([p], f.resolved) == [];
    assert s.goal.receipts + f.recovered == s.goal.receipts;
  }

  lemma ClassifyOnly(s: State, f: Findings)
    requires AllClassified(s.files, s.goal.pending) && FindingsOf(JournalOf(s.goal), s.files) == Some(f)
    ensures Step(s, Classify) == s.(found := s.found + {f})
  {
  }

  lemma DecidedThenPaused(s: State, f: Findings)
    requires s.runner.Deciding? && s.runner.verification.None? && !s.runner.exceeded && s.goal.status.Running?
    requires f in s.found && f.unblocks && !f.ambiguous
    ensures var t := Step(s, Decide(false)); t.goal.status.Completed? && t.runner == Idle && t.found == s.found
    ensures var u := Step(Step(s, Decide(false)), Apply(f)); u.goal.status.Paused? && Enabled(u, Resume(false))
  {
  }

  lemma NewIsUntried(files: Files, s: State)
    requires s.goal == Created(files).goal && s.runner == AtHead
    ensures Untried(s)
  {
  }
}
