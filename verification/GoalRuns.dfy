/** Whole runs of a goal: one runner works on it, and its user and the process interfere. */
module GoalRuns {
  import opened AgentGoal
  import opened GoalStatus
  import opened GoalSteps
  import opened Options
  import Slices = SliceAccounting
  import opened ToolJournal

  ghost function After(files: Files, history: seq<Event>): State {
    if history == [] then Created(files)
    else Step(After(files, history[..|history| - 1]), history[|history| - 1])
  }

  lemma OneMoreEvent(files: Files, history: seq<Event>, event: Event)
    ensures After(files, history + [event]) == Step(After(files, history), event)
  {
    assert (history + [event])[..|history|] == history;
  }

  lemma EventAt(files: Files, history: seq<Event>, n: nat)
    requires n < |history|
    ensures After(files, history[..n + 1]) == Step(After(files, history[..n]), history[n])
  {
    assert history[..n + 1] == history[..n] + [history[n]];
    OneMoreEvent(files, history[..n], history[n]);
  }

  // ---- Reasons ----

  /** In every visible state a paused goal says why it pauses and a blocked one why it is blocked. */
  lemma {:induction false} ReasonsAreGiven(files: Files, history: seq<Event>)
    ensures ReasonsGiven(After(files, history).goal)
  {
    if history != [] {
      ReasonsAreGiven(files, history[..|history| - 1]);
      StepKeepsReasons(After(files, history[..|history| - 1]), history[|history| - 1]);
    }
  }

  // ---- The head of the loop ----

  /**
   A runner that has looked at its goal blocks it exactly if the goal has intents, takes it up
   exactly if it has none and its receipts match, and finds a conflict exactly if it has none and
   the work tree changed under effects or the receipts do not match. Nothing else is looked at.
   */
  lemma HeadDecides(s: State, changed: bool)
    requires s.runner.Looked?
    ensures var seen := s.runner.seen;
            && (Enabled(s, HeadFindsIntents) <==> seen.pending != [])
            && (Enabled(s, HeadTakesUp) <==> seen.pending == [] && ReceiptsMatch(seen.receipts, seen.superseded, s.files))
            && (Enabled(s, HeadFindsConflict(changed)) <==>
                  && seen.pending == []
                  && (|| (changed && exists r :: r in seen.receipts && !r.Observation?)
                      || (ScanAnswers(seen, s.files) && !ReceiptsMatch(seen.receipts, seen.superseded, s.files))))
            && !Enabled(s, HeadLooks) && !Enabled(s, HeadStops) && !Enabled(s, ReadCandidate)
  {
    var receipts := s.runner.seen.receipts;
    if HasEffects(receipts) {
      var i :| 0 <= i < |receipts| && !receipts[i].Observation?;
      assert receipts[i] in receipts;
    }
  }

  /** After a checkpoint the runner stops exactly if the budget is exceeded or the goal is paused or blocked. */
  lemma CheckpointEndsRun(s: State, work: Work, slice: Slices.Slice, boundary: Slices.Boundary, exceeded: bool)
    requires Enabled(s, StoreCheckpoint(work, slice, boundary, exceeded))
    ensures var t := Step(s, StoreCheckpoint(work, slice, boundary, exceeded));
            t.runner == if exceeded || t.goal.status in {Paused, Blocked} then Idle else AtHead
  {
  }

  // ---- Pausing ----

  /** None of the events loses the pause, and none is a commit. */
  predicate Waits(events: seq<Event>) {
    forall i | 0 <= i < |events| :: !LosesPause(events[i]) && !Commits(events[i])
  }

  lemma {:induction false} PauseStandsUntilCommit(files: Files, history: seq<Event>, waiting: seq<Event>)
    requires Waits(waiting) && PauseStands(After(files, history).goal)
    requires After(files, history + waiting).runner.InSlice?
    ensures PauseStands(After(files, history + waiting).goal)
    ensures !After(files, history).goal.status.Cancelled? && Cancel !in waiting ==>
      !After(files, history + waiting).goal.status.Cancelled?
    decreases |waiting|
  {
    if waiting == [] {
      assert history + waiting == history;
    } else {
      var front, last := waiting[..|waiting| - 1], waiting[|waiting| - 1];
      assert waiting == front + [last];
      assert history + waiting == history + front + [last];
      OneMoreEvent(files, history + front, last);
      PauseStandsOn(After(files, history + front), last);
      PauseStandsUntilCommit(files, history, front);
    }
  }

  /**
   A pause that was accepted holds: if the goal is not taken up, sent to an approval or resumed
   before the runner's next commit, that commit leaves it at rest, and paused or blocked unless
   it was cancelled meanwhile.
   */
  lemma PauseHolds(files: Files, history: seq<Event>, waiting: seq<Event>, commit: Event)
    requires !Terminal(After(files, history).goal.status) && Waits(waiting)
    requires Commits(commit) && Enabled(After(files, history + [Pause] + waiting), commit)
    ensures var g := After(files, history + [Pause] + waiting + [commit]).goal;
            && Resting(g.status) && ReasonsGiven(g)
            && (Cancel !in waiting ==> g.status.Paused? || g.status.Blocked?)
  {
    OneMoreEvent(files, history, Pause);
    PauseStandsUntilCommit(files, history + [Pause], waiting);
    OneMoreEvent(files, history + [Pause] + waiting, commit);
    CommitRests(After(files, history + [Pause] + waiting), commit);
    ReasonsAreGiven(files, history + [Pause] + waiting + [commit]);
  }

  /** What is committed while a pause is requested ends in a pause or a block, with its reason. */
  lemma CommitHonoursPause(s: State, event: Event)
    requires s.goal.status.Pausing? && s.runner.InSlice? && Commits(event)
    ensures var g := Step(s, event).goal;
            && ReasonsGiven(g)
            && (g.status.Paused? || g.status.Blocked?)
            && (event.StoreCandidate? ==> g.status.Paused? && g.pauseReason == Some(UserPause))
            && (g.status.Blocked? <==> event.StoreCheckpoint? && Blocking(event.boundary))
  {
  }

  /** A requested pause is lost exactly at these events. */
  lemma PauseLostExactly(s: State, event: Event)
    requires s.goal.status.Pausing? && Enabled(s, event)
    ensures var status := Step(s, event).goal.status;
            !(status.Pausing? || Resting(status)) <==> LosesPause(event)
  {
  }

  /** A pause accepted between the runner's look at the goal and its start of work is lost. */
  lemma PauseIsLost(files: Files)
    ensures After(files, [HeadLooks, Pause]).goal.status.Pausing?
    ensures After(files, [HeadLooks, Pause, HeadTakesUp]).goal.status.Running?
  {
    HeadLooksOnly(Created(files));
    NoReceiptsMatch(Created(files).goal, files);
    PausedAndTakenUp(Step(Created(files), HeadLooks));
    OneMoreEvent(files, [], HeadLooks);
    assert [] + [HeadLooks] == [HeadLooks];
    OneMoreEvent(files, [HeadLooks], Pause);
    assert [HeadLooks] + [Pause] == [HeadLooks, Pause];
    OneMoreEvent(files, [HeadLooks, Pause], HeadTakesUp);
    assert [HeadLooks, Pause] + [HeadTakesUp] == [HeadLooks, Pause, HeadTakesUp];
  }

  // ---- Finished goals ----

  /** A finished goal is revived exactly by a change that does not look at its status. */
  lemma RevivedExactly(s: State, event: Event)
    requires Terminal(s.goal.status) && Enabled(s, event)
    ensures !Terminal(Step(s, event).goal.status) <==>
      || event.HeadTakesUp? || event.HeadFindsIntents? || event.HeadFindsConflict? || event.VerifierTooDear?
      || (event.StoreCheckpoint? && (event.exceeded || event.boundary.Budget? || Blocking(event.boundary)))
      || (event.AfterCandidate? && s.runner.exceeded)
      || (event.Apply? && (event.findings.ambiguous || event.findings.unblocks))
      || (event.ReadCandidate? && !Matches(s.goal, s.files))
      || (event.Decide? && (s.runner.exceeded || s.runner.verification == Some(Rejected)
                            || (s.runner.verification == Some(Continue) && !event.again)))
  {
  }

  /** A goal cancelled during its first step is revived by the commit of that step when it is over budget. */
  lemma CancelledGoalRevives(files: Files, work: Work, slice: Slices.Slice)
    ensures After(files, [HeadLooks, HeadTakesUp] + [Cancel]).goal.status.Cancelled?
    ensures After(files, [HeadLooks, HeadTakesUp] + [Cancel] + [StoreCheckpoint(work, slice, Slices.AtomicStep, true)]).goal.status.Paused?
  {
    CancelledInSlice(files);
    OneMoreEvent(files, [HeadLooks, HeadTakesUp] + [Cancel], StoreCheckpoint(work, slice, Slices.AtomicStep, true));
  }

  lemma CancelledInSlice(files: Files)
    ensures var s := After(files, [HeadLooks, HeadTakesUp] + [Cancel]);
            s.goal.status.Cancelled? && s.runner.InSlice?
  {
    TakenUpFirst(files);
    OneMoreEvent(files, [HeadLooks, HeadTakesUp], Cancel);
  }

  lemma TakenUpFirst(files: Files)
    ensures After(files, [HeadLooks, HeadTakesUp])
         == Created(files).(goal := TakenUp(Created(files).goal), runner := InSlice)
  {
    OneMoreEvent(files, [], HeadLooks);
    OneMoreEvent(files, [HeadLooks], HeadTakesUp);
    assert [] + [HeadLooks] == [HeadLooks];
    assert [HeadLooks] + [HeadTakesUp] == [HeadLooks, HeadTakesUp];
  }

  lemma {:induction false} RunLeavesCompleted(files: Files, history: seq<Event>)
    ensures CompletedIsLeft(After(files, history))
  {
    if history != [] {
      RunLeavesCompleted(files, history[..|history| - 1]);
      StepLeavesCompleted(After(files, history[..|history| - 1]), history[|history| - 1]);
    }
  }

  /** A completed goal changes exactly when findings that tell something are stored. */
  lemma CompletedChangesExactly(files: Files, history: seq<Event>, event: Event)
    requires After(files, history).goal.status.Completed?
    ensures After(files, history + [event]).goal != After(files, history).goal
       <==> event.Apply? && event.findings in After(files, history).found && Tells(event.findings)
  {
    RunLeavesCompleted(files, history);
    OneMoreEvent(files, history, event);
    StepLeavesCompleted(After(files, history), event);
  }

  /**
   A completed goal has nothing open and, unlike a cancelled one, never changes again, unless
   findings that tell something are still stored.
   */
  lemma {:induction false} CompletedIsFinal(files: Files, history: seq<Event>, more: seq<Event>)
    requires After(files, history).goal.status.Completed? && forall e | e in more :: e.Apply? ==> !Tells(e.findings)
    ensures NothingOpen(After(files, history).goal)
    ensures After(files, history + more).goal == After(files, history).goal
    decreases |more|
  {
    RunLeavesCompleted(files, history);
    if more == [] {
      assert history + more == history;
    } else {
      var front, last := more[..|more| - 1], more[|more| - 1];
      assert history + more == history + front + [last];
      assert last in more && forall e | e in front :: e in more;
      CompletedIsFinal(files, history, front);
      RunLeavesCompleted(files, history + front);
      OneMoreEvent(files, history + front, last);
      StepLeavesCompleted(After(files, history + front), last);
    }
  }

  /** A goal resumed in vain is forgotten with the process: what it superseded is not on disk. */
  lemma RefusedResumeIsForgotten(files: Files, history: seq<Event>)
    requires Enabled(After(files, history), Resume(true))
    ensures var s := After(files, history);
            var t := After(files, history + [Resume(true)] + [EndProcess]);
            t.goal == RestartPrepared(s.goal.(superseded := s.saved)) && t.saved == s.saved
  {
    OneMoreEvent(files, history, Resume(true));
    OneMoreEvent(files, history + [Resume(true)], EndProcess);
  }

  /** The run of a goal that is cancelled when the runner has looked at it after a first step, and then taken up. */
  function TakenUpAfterCancel(work: Work, slice: Slices.Slice): seq<Event> {
    [HeadLooks, HeadTakesUp, StoreCheckpoint(work, slice, Slices.AtomicStep, false), HeadLooks, Cancel, HeadTakesUp, EndProcess]
  }

  /** Such a goal can be resumed, but the counters of its open slice are gone. */
  lemma RevivedGoalLosesSlice(files: Files, work: Work, slice: Slices.Slice)
    ensures var h := TakenUpAfterCancel(work, slice);
            && After(files, h[..4]).goal.slice == slice
            && After(files, h).goal.slice == Slices.Restarted(slice)
            && After(files, h).goal.status.Paused? && Enabled(After(files, h), Resume(false))
  {
    var h := TakenUpAfterCancel(work, slice);
    LookedAfterStep(files, work, slice);
    TakenUpAgain(files, work, slice);
    EventAt(files, h, 6);
    assert h[..7] == h;
  }

  lemma SteppedFirst(files: Files, work: Work, slice: Slices.Slice)
    ensures var s := After(files, TakenUpAfterCancel(work, slice)[..3]);
            && s.goal == TakenUp(Created(files).goal).(work := work, slice := slice)
            && s.runner == AtHead && s.files == files && s.saved == []
  {
    var h := TakenUpAfterCancel(work, slice);
    assert h[..2] == [HeadLooks, HeadTakesUp];
    TakenUpFirst(files);
    EventAt(files, h, 2);
    StepIsStored(After(files, h[..2]), work, slice);
  }

  lemma LookedAfterStep(files: Files, work: Work, slice: Slices.Slice)
    ensures var s := After(files, TakenUpAfterCancel(work, slice)[..4]);
            && s.goal == TakenUp(Created(files).goal).(work := work, slice := slice)
            && s.runner == Looked(s.goal) && s.files == files && s.saved == []
  {
    SteppedFirst(files, work, slice);
    EventAt(files, TakenUpAfterCancel(work, slice), 3);
    HeadLooksOnly(After(files, TakenUpAfterCancel(work, slice)[..3]));
  }

  lemma CancelledAfterLook(files: Files, work: Work, slice: Slices.Slice)
    ensures var s := After(files, TakenUpAfterCancel(work, slice)[..5]);
            && s.goal.slice == Slices.Restarted(slice) && s.goal.pending == [] && s.goal.superseded == []
            && s.runner.Looked? && s.runner.seen.pending == [] && Matches(s.runner.seen, s.files) && s.saved == []
  {
    LookedAfterStep(files, work, slice);
    EventAt(files, TakenUpAfterCancel(work, slice), 4);
  }

  lemma TakenUpAgain(files: Files, work: Work, slice: Slices.Slice)
    ensures var s := After(files, TakenUpAfterCancel(work, slice)[..6]);
            && s.goal.slice == Slices.Restarted(slice) && s.goal.pending == [] && s.goal.superseded == s.saved == []
            && s.goal.status.Running?
  {
    CancelledAfterLook(files, work, slice);
    EventAt(files, TakenUpAfterCancel(work, slice), 5);
  }

  // ---- One charge per candidate ----

  lemma {:induction false} RunKeepsCharges(files: Files, history: seq<Event>)
    ensures ChargesOk(After(files, history))
  {
    if history != [] {
      RunKeepsCharges(files, history[..|history| - 1]);
      StepKeepsCharges(After(files, history[..|history| - 1]), history[|history| - 1]);
    }
  }

  /** How often the verifier decided on the candidate with this number. */
  ghost function Verifications(files: Files, history: seq<Event>, number: nat): nat {
    if history == [] then 0
    else
      var front, last := history[..|history| - 1], history[|history| - 1];
      var s := After(files, front);
      Verifications(files, front, number)
      + (if last.Verify? && Enabled(s, last) && s.runner.seen.candidate.value.number == number then 1 else 0)
  }

  lemma {:induction false} VerificationsAreCharged(files: Files, history: seq<Event>, number: nat)
    ensures Charge(After(files, history).charges, number) == Verifications(files, history, number)
  {
    if history != [] {
      VerificationsAreCharged(files, history[..|history| - 1], number);
      StepCharges(After(files, history[..|history| - 1]), history[|history| - 1], number);
    }
  }

  /** Every verification is charged, and no candidate is verified twice, over restarts too. */
  lemma ChargedAtMostOnce(files: Files, history: seq<Event>, number: nat)
    ensures Charge(After(files, history).charges, number) == Verifications(files, history, number) <= 1
  {
    RunKeepsCharges(files, history);
    VerificationsAreCharged(files, history, number);
  }

  // ---- Completion ----

  /** At event `k` the runner read the goal `seen`, with a candidate, and its receipts matched the files. */
  ghost predicate ReadAt(files: Files, history: seq<Event>, k: nat, seen: Goal) {
    && k < |history| && history[k] == ReadCandidate && Enabled(After(files, history[..k]), ReadCandidate)
    && After(files, history[..k]).goal == seen && Matches(seen, After(files, history[..k]).files)
  }

  /** At event `v` the verifier decided on the candidate with this number. */
  ghost predicate VerifiedAt(files: Files, history: seq<Event>, v: nat, number: nat, decision: Decision) {
    && v < |history| && history[v].Verify? && history[v].decision == decision
    && Enabled(After(files, history[..v]), history[v])
    && After(files, history[..v]).runner.seen.candidate.value.number == number
  }

  ghost predicate WasRead(files: Files, history: seq<Event>, seen: Goal) {
    exists k: nat :: ReadAt(files, history, k, seen)
  }

  ghost predicate WasVerified(files: Files, history: seq<Event>, number: nat, decision: Decision) {
    exists v: nat :: VerifiedAt(files, history, v, number, decision)
  }

  lemma ReadLater(files: Files, history: seq<Event>, event: Event, seen: Goal)
    requires WasRead(files, history, seen)
    ensures WasRead(files, history + [event], seen)
  {
    var k: nat :| ReadAt(files, history, k, seen);
    assert (history + [event])[..k] == history[..k];
    assert ReadAt(files, history + [event], k, seen);
  }

  lemma VerifiedLater(files: Files, history: seq<Event>, event: Event, number: nat, decision: Decision)
    requires WasVerified(files, history, number, decision)
    ensures WasVerified(files, history + [event], number, decision)
  {
    var v: nat :| VerifiedAt(files, history, v, number, decision);
    assert (history + [event])[..v] == history[..v];
    assert VerifiedAt(files, history + [event], v, number, decision);
  }

  /** A stored verification came from a verifier's decision on this very candidate. */
  ghost predicate Backed(files: Files, history: seq<Event>, candidate: Candidate) {
    candidate.verification.Some? ==> WasVerified(files, history, candidate.number, candidate.verification.value)
  }

  ghost predicate GoalBacked(files: Files, history: seq<Event>, g: Goal) {
    g.candidate.Some? ==> Backed(files, history, g.candidate.value)
  }

  ghost predicate RunnerBacked(files: Files, history: seq<Event>, r: Runner) {
    (r.Handling? || r.Deciding?) ==>
      && WasRead(files, history, r.seen) && r.seen.candidate.Some? && Backed(files, history, r.seen.candidate.value)
      && (r.Deciding? ==>
            if r.verification.None? then !RequiresVerifier(r.seen)
            else WasVerified(files, history, r.seen.candidate.value.number, r.verification.value))
  }

  lemma GoalBackedLater(files: Files, history: seq<Event>, event: Event, g: Goal)
    requires GoalBacked(files, history, g)
    ensures GoalBacked(files, history + [event], g)
  {
    if g.candidate.Some? && g.candidate.value.verification.Some? {
      VerifiedLater(files, history, event, g.candidate.value.number, g.candidate.value.verification.value);
    }
  }

  lemma RunnerBackedLater(files: Files, history: seq<Event>, event: Event, r: Runner)
    requires RunnerBacked(files, history, r)
    ensures RunnerBacked(files, history + [event], r)
  {
    if r.Handling? || r.Deciding? {
      ReadLater(files, history, event, r.seen);
      GoalBackedLater(files, history, event, r.seen);
      if r.Deciding? && r.verification.Some? {
        VerifiedLater(files, history, event, r.seen.candidate.value.number, r.verification.value);
      }
    }
  }

  lemma {:induction false} RunIsBacked(files: Files, history: seq<Event>)
    ensures GoalBacked(files, history, After(files, history).goal)
    ensures RunnerBacked(files, history, After(files, history).runner)
  {
    if history != [] {
      var front, event := history[..|history| - 1], history[|history| - 1];
      var s, t := After(files, front), After(files, history);
      RunIsBacked(files, front);
      RunKeepsCharges(files, front);
      assert history == front + [event];
      GoalBackedLater(files, front, event, s.goal);
      RunnerBackedLater(files, front, event, s.runner);
      if event.Verify? && Enabled(s, event) {
        assert VerifiedAt(files, history, |front|, s.runner.seen.candidate.value.number, event.decision);
      }
      if event == ReadCandidate && Enabled(s, event) && Matches(s.goal, s.files) {
        assert ReadAt(files, history, |front|, s.goal);
      }
      StepIsBacked(files, history, s, event);
    }
  }

  /** One step, when everything before it is backed by the whole history. */
  lemma StepIsBacked(files: Files, history: seq<Event>, s: State, event: Event)
    requires GoalBacked(files, history, s.goal) && RunnerBacked(files, history, s.runner) && ChargesOk(s)
    requires event.Verify? && Enabled(s, event) ==> WasVerified(files, history, s.runner.seen.candidate.value.number, event.decision)
    requires event == ReadCandidate && Enabled(s, event) && Matches(s.goal, s.files) ==> WasRead(files, history, s.goal)
    ensures GoalBacked(files, history, Step(s, event).goal) && RunnerBacked(files, history, Step(s, event).runner)
  {
    CandidateStep(s, event);
    RunnerStep(s, event);
  }

  /**
   One response of the model, without tools and without any earlier step, steering or receipt of
   more than an observation, led to this candidate.
   */
  ghost predicate AnsweredAtOnce(g: Goal)
    requires g.candidate.Some?
  {
    && !g.candidate.value.usedTools && g.candidate.value.responses <= 1
    && !g.work.usedTools && !g.work.toolTranscript
    && g.slice.responses == 0 && g.slice.index == 0 && g.steering == 0
    && forall r | r in g.receipts :: r.Observation?
  }

  lemma VerifierExactly(g: Goal)
    requires g.candidate.Some?
    ensures RequiresVerifier(g) <==> !AnsweredAtOnce(g)
  {
    if !HasEffects(g.receipts) {
      forall r | r in g.receipts
        ensures r.Observation?
      {
      }
    } else {
      var i :| 0 <= i < |g.receipts| && !g.receipts[i].Observation?;
      assert g.receipts[i] in g.receipts;
    }
  }

  /** What stands behind the decision to complete a goal. */
  ghost predicate Checked(files: Files, history: seq<Event>, k: nat, seen: Goal) {
    && ReadAt(files, history, k, seen)
    && seen.candidate.Some?
    && (AnsweredAtOnce(seen) || WasVerified(files, history, seen.candidate.value.number, Accepted))
  }

  /**
   Event `n` completes the goal: its runner had read it at event `k`, with a candidate and with
   receipts that matched the files, and the verifier accepted this very candidate unless it was
   the answer of one response with nothing before it.
   */
  ghost predicate CompletesAt(files: Files, history: seq<Event>, k: nat, n: nat) {
    && k < n < |history|
    && Completes(After(files, history[..n]), history[n])
    && Checked(files, history[..n], k, After(files, history[..k]).goal)
  }

  lemma DecisionIsChecked(files: Files, history: seq<Event>, r: Runner) returns (k: nat)
    requires RunnerBacked(files, history, r) && r.Deciding?
    requires r.verification.None? || r.verification == Some(Accepted)
    ensures Checked(files, history, k, r.seen)
  {
    VerifierExactly(r.seen);
    k :| ReadAt(files, history, k, r.seen);
  }

  lemma CompletedNow(files: Files, front: seq<Event>, event: Event)
    requires Completes(After(files, front), event)
    ensures exists k: nat :: CompletesAt(files, front + [event], k, |front|)
  {
    RunIsBacked(files, front);
    CompletedByDecision(After(files, front), event);
    var r := After(files, front).runner;
    var k := DecisionIsChecked(files, front, r);
    CompletesAtEnd(files, front, event, k, r.seen);
  }

  lemma CompletesAtEnd(files: Files, front: seq<Event>, event: Event, k: nat, seen: Goal)
    requires Checked(files, front, k, seen) && Completes(After(files, front), event)
    ensures CompletesAt(files, front + [event], k, |front|)
  {
    assert (front + [event])[..|front|] == front && (front + [event])[..k] == front[..k];
  }

  /** A completed goal was completed by an event after its receipts matched and its candidate was accepted, or was an answer at once. */
  lemma {:induction false} CompletedWasChecked(files: Files, history: seq<Event>)
    requires After(files, history).goal.status.Completed?
    ensures exists k: nat, n: nat :: CompletesAt(files, history, k, n)
  {
    var n := |history| - 1;
    var front := history[..n];
    assert history == front + [history[n]];
    if After(files, front).goal.status.Completed? {
      CompletedWasChecked(files, front);
      var i: nat, j: nat :| CompletesAt(files, front, i, j);
      CompletesLater(files, front, history[n], i, j);
    } else {
      CompletedNow(files, front, history[n]);
    }
  }

  lemma CompletesLater(files: Files, front: seq<Event>, event: Event, k: nat, n: nat)
    requires CompletesAt(files, front, k, n)
    ensures CompletesAt(files, front + [event], k, n)
  {
    assert (front + [event])[..k] == front[..k] && (front + [event])[..n] == front[..n];
  }

  /**
   A runner that has read a candidate calls the verifier exactly if the candidate was not verified
   yet and is not the answer of one response with nothing before it.
   */
  lemma VerifiedExactlyWhenNeeded(files: Files, history: seq<Event>, decision: Decision, exceeded: bool)
    requires After(files, history).runner.Handling?
    ensures var s := After(files, history);
            var seen := s.runner.seen;
            && seen.candidate.Some?
            && (Enabled(s, Verify(decision, exceeded)) <==> seen.candidate.value.verification.None? && !AnsweredAtOnce(seen))
            && (Enabled(s, NoVerification) <==> seen.candidate.value.verification.Some? || AnsweredAtOnce(seen))
  {
    RunIsBacked(files, history);
    HandlingEnables(After(files, history), decision, exceeded);
    VerifierExactly(After(files, history).runner.seen);
  }

  /** Such an answer completes its goal without a verifier. */
  lemma AnswerAtOnceCompletes(files: Files, history: seq<Event>, again: bool)
    requires var s := After(files, history);
             && s.runner.Handling? && s.runner.seen.candidate.Some? && s.runner.seen.candidate.value.verification.None?
             && AnsweredAtOnce(s.runner.seen) && !Terminal(s.goal.status)
    ensures After(files, history + [NoVerification] + [Decide(again)]).goal.status.Completed?
  {
    VerifierExactly(After(files, history).runner.seen);
    OneMoreEvent(files, history, NoVerification);
    OneMoreEvent(files, history + [NoVerification], Decide(again));
    UnverifiedCompletes(After(files, history), again);
  }

  // ---- Late steering ----

  /** How many messages of the user the goal took in the run. */
  ghost function Taken(files: Files, history: seq<Event>): nat {
    if history == [] then 0
    else
      var front := history[..|history| - 1];
      Taken(files, front) + TakenBy(After(files, front), history[|history| - 1])
  }

  lemma {:induction false} SteeringCounts(files: Files, history: seq<Event>)
    ensures After(files, history).goal.steering == Taken(files, history)
  {
    if history != [] {
      SteeringCounts(files, history[..|history| - 1]);
      StepCountsSteering(After(files, history[..|history| - 1]), history[|history| - 1]);
    }
  }

  /**
   The messages that a completion misses are exactly those that came after its goal was read:
   the completed goal has them, marked as seen, but neither the check for a verifier nor a
   transcript did.
   */
  lemma LateSteeringIsMissed(files: Files, history: seq<Event>, k: nat, n: nat)
    requires CompletesAt(files, history, k, n)
    ensures var seen, done := After(files, history[..k]).goal, Step(After(files, history[..n]), history[n]).goal;
            && done.steering - seen.steering == Taken(files, history[..n]) - Taken(files, history[..k])
            && done.injected == done.steering
            && (!WasVerified(files, history[..n], seen.candidate.value.number, Accepted) ==> seen.steering == 0)
  {
    SteeringCounts(files, history[..k]);
    SteeringCounts(files, history[..n]);
    RunLeavesCompleted(files, history[..n]);
    CompletedByDecision(After(files, history[..n]), history[n]);
    StepCountsSteering(After(files, history[..n]), history[n]);
    StepLeavesCompleted(After(files, history[..n]), history[n]);
  }

  /** A goal whose first candidate needs no verifier, up to the decision on it. */
  function Undisturbed(): seq<Event> {
    [HeadLooks, HeadTakesUp, StoreCandidate(0, false, false), AfterCandidate, ReadCandidate, NoVerification]
  }

  lemma UndisturbedIsDecided(files: Files, history: seq<Event>)
    requires Untried(After(files, history))
    ensures var s, t := After(files, history), After(files, history + Undisturbed());
            && t.goal == TakenUp(s.goal).(candidate := Some(Candidate(s.next, 0, false, None)))
            && t.runner == Deciding(t.goal, None, false) && t.found == s.found
  {
    UndisturbedSteps(files, history);
    var s := After(files, history);
    CandidateIsStored(s);
    CandidateIsRead(Step(Step(Step(s, HeadLooks), HeadTakesUp), StoreCandidate(0, false, false)));
  }

  lemma UndisturbedSteps(files: Files, history: seq<Event>)
    ensures var t := Step(Step(Step(After(files, history), HeadLooks), HeadTakesUp), StoreCandidate(0, false, false));
            After(files, history + Undisturbed()) == Step(Step(Step(t, AfterCandidate), ReadCandidate), NoVerification)
  {
    ThreeMoreEvents(files, history, HeadLooks, HeadTakesUp, StoreCandidate(0, false, false));
    var three := history + [HeadLooks, HeadTakesUp, StoreCandidate(0, false, false)];
    ThreeMoreEvents(files, three, AfterCandidate, ReadCandidate, NoVerification);
    assert three + [AfterCandidate, ReadCandidate, NoVerification] == history + Undisturbed();
  }

  lemma ThreeMoreEvents(files: Files, history: seq<Event>, a: Event, b: Event, c: Event)
    ensures After(files, history + [a, b, c]) == Step(Step(Step(After(files, history), a), b), c)
  {
    OneMoreEvent(files, history, a);
    OneMoreEvent(files, history + [a], b);
    OneMoreEvent(files, history + [a] + [b], c);
    assert history + [a] + [b] + [c] == history + [a, b, c];
  }

  /** Such a run: the goal is completed although its user has just steered it. */
  lemma LateSteeringHappens(files: Files)
    ensures After(files, Undisturbed()).goal.steering == 0
    ensures After(files, Undisturbed() + [Steer] + [Decide(false)]).goal.status.Completed?
    ensures After(files, Undisturbed() + [Steer] + [Decide(false)]).goal.steering == 1
  {
    assert [] + Undisturbed() == Undisturbed();
    UndisturbedIsDecided(files, []);
    OneMoreEvent(files, Undisturbed(), Steer);
    OneMoreEvent(files, Undisturbed() + [Steer], Decide(false));
    SteeredAndDecided(After(files, Undisturbed()));
  }

  // ---- A completed goal that is opened again ----

  function CancelledWrite(p: Intent): seq<Event> {
    [HeadLooks, HeadTakesUp] + [RecordIntent(p)] + [Cancel] + [Fail(RunCancelled)]
  }

  /** A goal is cancelled before its first write is done, and two status queries classify it. */
  function ClassifiedTwice(p: Intent): seq<Event> {
    CancelledWrite(p) + [Classify] + [Classify]
  }

  /**
   The first query stores its findings, the user resumes the goal, it is completed, and then the
   second query stores its findings: the completed goal is paused and can be resumed again.
   */
  lemma CompletedIsReopened(files: Files, p: Intent) returns (f: Findings)
    requires Undone(files, p)
    ensures var h := ClassifiedTwice(p) + [Apply(f)] + [Resume(false)] + Undisturbed() + [Decide(false)];
            && After(files, h).goal.status.Completed?
            && After(files, h + [Apply(f)]).goal.status.Paused? && Enabled(After(files, h + [Apply(f)]), Resume(false))
  {
    UndoneIsFound(files, p);
    f := FindingsOf(Journal(Blocked, None, Some(AmbiguousToolEffect), [p], [], [], []), files).value;
    var resumed := ClassifiedTwice(p) + [Apply(f)] + [Resume(false)];
    ResumedAfterQuery(files, p, f);
    UndisturbedIsDecided(files, resumed);
    OneMoreEvent(files, resumed + Undisturbed(), Decide(false));
    OneMoreEvent(files, resumed + Undisturbed() + [Decide(false)], Apply(f));
    DecidedThenPaused(After(files, resumed + Undisturbed()), f);
  }

  lemma ResumedAfterQuery(files: Files, p: Intent, f: Findings)
    requires Undone(files, p)
    requires FindingsOf(Journal(Blocked, None, Some(AmbiguousToolEffect), [p], [], [], []), files) == Some(f)
    ensures var s := After(files, ClassifiedTwice(p) + [Apply(f)] + [Resume(false)]);
            && Untried(s) && s.found == {f}
  {
    var s := After(files, CancelledWrite(p));
    BlockedAfterCancel(files, p);
    QueriedAfterCancel(files, p, f);
    assert JournalOf(s.goal) == Journal(Blocked, None, Some(AmbiguousToolEffect), [p], [], [], []);
    ClassifiedAndResumed(s, f, p);
    NewIsUntried(files, After(files, ClassifiedTwice(p) + [Apply(f)] + [Resume(false)]));
  }

  lemma QueriedAfterCancel(files: Files, p: Intent, f: Findings)
    ensures After(files, ClassifiedTwice(p) + [Apply(f)] + [Resume(false)])
         == Step(Step(Step(Step(After(files, CancelledWrite(p)), Classify), Classify), Apply(f)), Resume(false))
  {
    OneMoreEvent(files, CancelledWrite(p), Classify);
    OneMoreEvent(files, CancelledWrite(p) + [Classify], Classify);
    OneMoreEvent(files, ClassifiedTwice(p), Apply(f));
    OneMoreEvent(files, ClassifiedTwice(p) + [Apply(f)], Resume(false));
  }

  lemma BlockedAfterCancel(files: Files, p: Intent)
    requires p.risk == Write
    ensures var s := After(files, CancelledWrite(p));
            && s.goal == Created(files).goal.(status := Blocked, blockReason := Some(AmbiguousToolEffect), pending := [p])
            && s.runner == Idle && s.found == {} && s.files == files && s.next == 0
  {
    var taken := [HeadLooks, HeadTakesUp];
    TakenUpFirst(files);
    OneMoreEvent(files, taken, RecordIntent(p));
    OneMoreEvent(files, taken + [RecordIntent(p)], Cancel);
    OneMoreEvent(files, taken + [RecordIntent(p)] + [Cancel], Fail(RunCancelled));
    CancelledInWrite(After(files, taken), p);
  }

  // ---- The goal in place ----

  /** The record does to the goal what the event does; `number` tells the next candidate apart. */
  method Perform(record: GoalRecord, s: State, event: Event, number: nat)
    requires record.Value() == s.goal && number == s.next && Enabled(s, event)
    modifies record
    ensures record.Value() == Step(s, event).goal
  {
    if OfRunner(event) {
      PerformOfRunner(record, s, event, number);
    } else {
      PerformOfOthers(record, s, event);
    }
  }

  method PerformOfOthers(record: GoalRecord, s: State, event: Event)
    requires record.Value() == s.goal && Enabled(s, event) && !OfRunner(event)
    modifies record
    ensures record.Value() == GoalAfter(s, event)
  {
    match event
    case Pause => var _ := record.RequestPause();
    case Cancel => var _ := record.RequestCancel();
    case Steer => var _ := record.Steer();
    case Resume(refused) => record.Resume(refused);
    case Extend(_) => var _ := record.Extend();
    case AwaitApproval => record.AwaitApproval();
    case DecideApproval => record.DecideApproval();
    case EndProcess => record.Reload(s.saved);
    case Apply(findings) => record.StoreFindings(findings);
    case RecordIntent(intent) => record.RecordIntent(intent);
    case RecordReceipt(id, receipt) => record.ResolveIntent(id, [receipt]);
    case RecordNoEffect(id) => record.ResolveIntent(id, []);
    case _ =>
  }

  method PerformOfRunner(record: GoalRecord, s: State, event: Event, number: nat)
    requires record.Value() == s.goal && number == s.next && Enabled(s, event) && OfRunner(event)
    modifies record
    ensures record.Value() == GoalAfter(s, event)
  {
    match event
    case HeadFindsIntents => record.Block(AmbiguousToolEffect);
    case HeadFindsConflict(_) => record.Block(WorkspaceConflict);
    case HeadTakesUp => record.TakeUp();
    case StoreCheckpoint(work, slice, boundary, exceeded) => record.CommitCheckpoint(work, slice, boundary, exceeded);
    case StoreCandidate(responses, usedTools, _) =>
      var _ := record.CommitCandidate(Candidate(number, responses, usedTools, None));
    case AfterCandidate =>
      if s.runner.exceeded {
        record.Pause(BudgetPause);
      }
    case ReadCandidate => PerformRead(record, s.files);
    case VerifierTooDear => record.Pause(BudgetPause);
    case Verify(decision, _) => var _ := record.StoreVerification(decision);
    case Decide(again) => PerformDecision(record, s.runner, again);
    case Fail(error) => record.StopWith(error);
    case _ =>
  }

  /** The check of the receipts before a candidate is decided on. */
  method PerformRead(record: GoalRecord, files: Files)
    requires ScanAnswers(record.Value(), files)
    modifies record
    ensures record.Value() == if Matches(old(record.Value()), files) then old(record.Value())
                              else BlockedFor(old(record.Value()), WorkspaceConflict)
  {
    var matching := ReceiptsMatchRepository(true, record.receipts, record.superseded, files);
    if matching != Some(true) {
      record.Block(WorkspaceConflict);
    }
  }

  /** What follows from a verification. */
  method PerformDecision(record: GoalRecord, r: Runner, again: bool)
    requires r.Deciding?
    modifies record
    ensures record.Value()
         == var g := old(record.Value());
            if r.exceeded then PausedFor(g, BudgetPause)
            else if r.verification == Some(Continue) then if again then CandidateDropped(g) else BlockedFor(g, VerifierRejected)
            else if r.verification == Some(Rejected) then BlockedFor(g, VerifierRejected)
            else ResultCommitted(g)
  {
    if r.exceeded {
      record.Pause(BudgetPause);
    } else if r.verification == Some(Continue) {
      if again {
        record.DropCandidate();
      } else {
        record.Block(VerifierRejected);
      }
    } else if r.verification == Some(Rejected) {
      record.Block(VerifierRejected);
    } else {
      var _ := record.CommitResult();
    }
  }
}
