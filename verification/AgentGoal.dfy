/**
 A durable goal and the changes that are made to it, one per mutation of the program. A change
 that is refused leaves these fields as they are.
 */
module AgentGoal {
  import opened GoalStatus
  import opened Options
  import opened SliceAccounting
  import opened ToolJournal

  datatype Decision = Accepted | Continue | Rejected

  /** `number` tells candidates apart; the program has no such field. */
  datatype Candidate = Candidate(number: nat, responses: nat, usedTools: bool, verification: Option<Decision>)

  /** What the checkpoint says about the work so far. */
  datatype Work = Work(usedTools: bool, toolTranscript: bool)

  /** `steering` counts the messages of the user, `injected` those that are marked as seen. */
  datatype Goal = Goal(status: Status, pauseReason: Option<PauseReason>, blockReason: Option<BlockReason>,
                       candidate: Option<Candidate>, work: Work, slice: Slice, steering: nat, injected: nat,
                       pending: seq<Intent>, receipts: seq<Receipt>, superseded: seq<string>)

  /** Why a runner stops. */
  datatype RunError = ProviderLost | RunCancelled | Runaway | Storage | InvalidResult | InvalidModelResponse |
    InvalidCandidate | InvalidVerifier

  predicate HasEffects(receipts: seq<Receipt>) {
    exists i | 0 <= i < |receipts| :: !receipts[i].Observation?
  }

  predicate RequiresVerifier(g: Goal) {
    && g.candidate.Some?
    && (|| g.candidate.value.usedTools || g.candidate.value.responses > 1
        || g.work.usedTools || g.slice.responses > 0 || g.work.toolTranscript
        || g.slice.index > 0 || g.steering > 0 || HasEffects(g.receipts))
  }

  /** Only a user or a resume moves a goal on from here. */
  predicate Resting(status: Status) {
    Terminal(status) || status.Paused? || status.Blocked?
  }

  /** A paused goal says why it pauses, and a blocked one why it is blocked. */
  predicate ReasonsGiven(g: Goal) {
    (g.status.Paused? ==> g.pauseReason.Some?) && (g.status.Blocked? ==> g.blockReason.Some?)
  }

  // ---- The changes on values ----

  /** A finished goal loses its working data, the counters of its open slice included. */
  function Cleared(g: Goal): Goal {
    g.(candidate := None, pending := [], work := g.work.(toolTranscript := false), slice := Restarted(g.slice),
       injected := g.steering)
  }

  function BlockedFor(g: Goal, reason: BlockReason): Goal {
    g.(status := Blocked, blockReason := Some(reason))
  }

  function PausedFor(g: Goal, reason: PauseReason): Goal {
    g.(status := Paused, pauseReason := Some(reason))
  }

  function PauseRequested(g: Goal): Goal {
    if Terminal(g.status) then g else g.(status := Pausing, pauseReason := Some(UserPause))
  }

  predicate AllReadOnly(pending: seq<Intent>) {
    forall i | 0 <= i < |pending| :: pending[i].risk == ReadOnly
  }

  function CancelRequested(g: Goal): Goal {
    if Terminal(g.status) then g
    else if AllReadOnly(g.pending) then
      Cleared(g.(status := Cancelled, pauseReason := None, blockReason := None))
    else BlockedFor(g, AmbiguousToolEffect)
  }

  /** A resume accepts a changed workspace; one that is refused after that leaves the acceptance in memory. */
  function Resumed(g: Goal, refused: bool): Goal {
    if Terminal(g.status) then g
    else
      var accepted :=
        if g.status.Blocked? && g.blockReason == Some(WorkspaceConflict)
        then g.(superseded := SupersedeAll(g.receipts, g.superseded)) else g;
      if refused then accepted else accepted.(status := Queued, pauseReason := None, blockReason := None)
  }

  function Extended(g: Goal): Goal {
    if g.status.Paused? && g.pauseReason == Some(BudgetPause) then g.(status := Queued, pauseReason := None) else g
  }

  function Steered(g: Goal): Goal {
    if Terminal(g.status) then g else g.(steering := g.steering + 1)
  }

  function RestartPrepared(g: Goal): Goal {
    if Terminal(g.status) || g.status.Paused? || g.status.Blocked? then g
    else g.(status := Paused, pauseReason := Some(AppRestarted), blockReason := None)
  }

  function ApprovalAwaited(g: Goal): Goal {
    if Terminal(g.status) then g else g.(status := AwaitingApproval)
  }

  function ApprovalDecided(g: Goal): Goal {
    if g.status.AwaitingApproval? then g.(status := Running) else g
  }

  function JournalOf(g: Goal): Journal {
    Journal(g.status, g.pauseReason, g.blockReason, g.pending, g.receipts, g.superseded, [])
  }

  function WithJournal(g: Goal, j: Journal): Goal {
    g.(status := j.status, pauseReason := j.pauseReason, blockReason := j.blockReason, pending := j.pending,
       receipts := j.receipts, superseded := j.superseded)
  }

  function FindingsApplied(g: Goal, found: Findings): Goal {
    WithJournal(g, Applied(JournalOf(g), found))
  }

  /** The runner takes the goal up; new steering messages go into its transcript. */
  function TakenUp(g: Goal): Goal {
    g.(status := Running, pauseReason := None, blockReason := None, injected := g.steering)
  }

  function AfterBoundary(g: Goal, boundary: Boundary): Goal {
    if boundary.NoProgressBlocked? then BlockedFor(g, NoProgress)
    else if boundary.RunawayGuard? then BlockedFor(g, BlockReason.RunawayGuard)
    else if boundary.Budget? then PausedFor(g, BudgetPause)
    else g
  }

  /** The end of a checkpoint's commit: first the boundary, then the budget, then a requested pause. */
  function CheckpointStored(g: Goal, work: Work, slice: Slice, boundary: Boundary, exceeded: bool): Goal {
    var reached := AfterBoundary(g.(work := work, slice := slice), boundary);
    if exceeded && !reached.status.Blocked? then PausedFor(reached, BudgetPause)
    else if reached.status.Pausing? then PausedFor(reached, UserPause)
    else reached
  }

  function CandidateStored(g: Goal, candidate: Candidate): Goal {
    var stored := g.(candidate := Some(candidate));
    if g.status.Pausing? then PausedFor(stored, UserPause) else stored
  }

  function VerificationStored(g: Goal, decision: Decision): Goal {
    if g.candidate.None? then g
    else g.(candidate := Some(g.candidate.value.(verification := Some(decision))))
  }

  function CandidateDropped(g: Goal): Goal {
    g.(candidate := None)
  }

  function ResultCommitted(g: Goal): Goal {
    if Terminal(g.status) then g
    else Cleared(g.(status := Completed, pauseReason := None, blockReason := None))
  }

  /** What a stopped runner leaves behind. */
  function StoppedWith(g: Goal, error: RunError): Goal {
    if Resting(g.status) then g
    else
      match error
      case ProviderLost => PausedFor(g, ProviderUnavailable)
      case RunCancelled => Cleared(g.(status := Cancelled, pauseReason := None))
      case Runaway => BlockedFor(g, BlockReason.RunawayGuard)
      case Storage => BlockedFor(g, StorageLocked)
      case InvalidResult => BlockedFor(g, RuntimeInvariant)
      case InvalidModelResponse => BlockedFor(g, ModelResponseInvalid)
      case InvalidCandidate => BlockedFor(g, CompletionCandidateInvalid)
      case InvalidVerifier => BlockedFor(g, VerifierRejected)
  }

  // ---- What a caller relies on ----

  predicate Blocking(boundary: Boundary) {
    boundary.NoProgressBlocked? || boundary.RunawayGuard?
  }

  /** Nothing but the status and its reasons differs. */
  predicate SameButStatus(g: Goal, h: Goal) {
    h == g.(status := h.status, pauseReason := h.pauseReason, blockReason := h.blockReason)
  }

  /**
   After a checkpoint's commit a goal is blocked exactly if its boundary blocks it or it was
   blocked before and the boundary is not the budget; otherwise it pauses exactly if the budget,
   a requested pause or an earlier pause asks for it, the budget's reason winning over the
   user's; otherwise its status and reasons are as before. No request to pause is left open.
   */
  lemma CheckpointOutcome(g: Goal, work: Work, slice: Slice, boundary: Boundary, exceeded: bool)
    requires ReasonsGiven(g)
    ensures var r := CheckpointStored(g, work, slice, boundary, exceeded);
            var overspent := exceeded || boundary.Budget?;
            && ReasonsGiven(r) && SameButStatus(g.(work := work, slice := slice), r)
            && (r.status.Blocked? <==> Blocking(boundary) || (g.status.Blocked? && !boundary.Budget?))
            && (r.status.Paused? <==> !r.status.Blocked? && (overspent || g.status.Pausing? || g.status.Paused?))
            && (r.status.Paused? && overspent ==> r.pauseReason == Some(BudgetPause))
            && (r.status.Paused? && !overspent && g.status.Pausing? ==> r.pauseReason == Some(UserPause))
            && (!r.status.Paused? && !r.status.Blocked? ==> r == g.(work := work, slice := slice))
            && (g.status.Pausing? ==> r.status.Paused? || r.status.Blocked?)
  {
  }

  /** Storing a candidate settles a requested pause, and changes no other goal's status. */
  lemma CandidateOutcome(g: Goal, candidate: Candidate)
    requires ReasonsGiven(g)
    ensures var r := CandidateStored(g, candidate);
            && ReasonsGiven(r) && r.candidate == Some(candidate) && SameButStatus(g.(candidate := r.candidate), r)
            && !r.status.Pausing?
            && (r.status != g.status <==> g.status.Pausing?)
            && (g.status.Pausing? ==> r.status.Paused? && r.pauseReason == Some(UserPause))
  {
  }

  /** No message, candidate or intent of the goal waits for anything, and its slice has not begun. */
  predicate NothingOpen(g: Goal) {
    g.candidate.None? && g.pending == [] && g.injected == g.steering && g.slice == Restarted(g.slice)
  }

  /**
   A result completes exactly the goals that are not finished; such a goal gives no reason and
   keeps nothing open, but its receipts. Another result changes nothing.
   */
  lemma ResultOutcome(g: Goal)
    ensures var r := ResultCommitted(g);
            && (r.status.Completed? <==> g.status.Completed? || !Terminal(g.status))
            && (Terminal(g.status) <==> ResultCommitted(r) == r == g)
            && (!Terminal(g.status) ==> NothingOpen(r) && r.pauseReason == None && r.blockReason == None && !RequiresVerifier(r))
            && r.receipts == g.receipts && r.superseded == g.superseded && r.steering == g.steering
  {
    var r := ResultCommitted(g);
    assert Terminal(r.status);
  }

  /**
   A runner that stops leaves a goal that rests and says why. One that rested before is
   unchanged; of any other the outcome tells which error it was, and only a cancellation
   clears it.
   */
  lemma StopOutcome(g: Goal, error: RunError, other: RunError)
    requires ReasonsGiven(g)
    ensures var r := StoppedWith(g, error);
            && Resting(r.status) && ReasonsGiven(r) && StoppedWith(r, other) == r
            && (r == g <==> Resting(g.status))
            && (!Resting(g.status) ==>
                  && (r == StoppedWith(g, other) <==> error == other)
                  && (r.status.Paused? <==> error == ProviderLost)
                  && (Terminal(r.status) <==> error == RunCancelled)
                  && (if error == RunCancelled then NothingOpen(r) else SameButStatus(g, r)))
  {
  }

  method OnlyReads(pending: seq<Intent>) returns (all: bool)
    ensures all == AllReadOnly(pending)
  {
    for k := 0 to |pending|
      invariant forall i | 0 <= i < k :: pending[i].risk == ReadOnly
    {
      if pending[k].risk != ReadOnly {
        return false;
      }
    }
    all := true;
  }

  // ---- The goal in place ----

  class GoalRecord {
    var status: Status
    var pauseReason: Option<PauseReason>
    var blockReason: Option<BlockReason>
    var candidate: Option<Candidate>
    var work: Work
    var slice: Slice
    var steering: nat
    var injected: nat
    var pending: seq<Intent>
    var receipts: seq<Receipt>
    var superseded: seq<string>

    function Value(): Goal
      reads this
    {
      Goal(status, pauseReason, blockReason, candidate, work, slice, steering, injected, pending, receipts, superseded)
    }

    constructor (g: Goal)
      ensures Value() == g
    {
      status, pauseReason, blockReason, candidate := g.status, g.pauseReason, g.blockReason, g.candidate;
      work, slice, steering, injected := g.work, g.slice, g.steering, g.injected;
      pending, receipts, superseded := g.pending, g.receipts, g.superseded;
    }

    method ClearActiveWorkingData()
      modifies this
      ensures Value() == Cleared(old(Value()))
    {
      candidate, pending, injected := None, [], steering;
      work := work.(toolTranscript := false);
      slice := Restarted(slice);
    }

    method RequestPause() returns (ok: bool)
      modifies this
      ensures Value() == PauseRequested(old(Value())) && ok == !Terminal(old(status))
      ensures Value() == if ok then old(Value()).(status := Pausing, pauseReason := Some(UserPause)) else old(Value())
    {
      if Terminal(status) {
        return false;
      }
      status, pauseReason := Pausing, Some(UserPause);
      ok := true;
    }

    method RequestCancel() returns (ok: bool)
      modifies this
      ensures Value() == CancelRequested(old(Value())) && ok == !Terminal(old(status))
      ensures ok ==> if AllReadOnly(old(pending)) then status == Cancelled && NothingOpen(Value())
                     else Value() == old(Value()).(status := Blocked, blockReason := Some(AmbiguousToolEffect))
      ensures status == Cancelled && old(status) != Cancelled ==>
        && pauseReason == None && blockReason == None && candidate == None && pending == []
        && receipts == old(receipts) && superseded == old(superseded) && steering == old(steering)
        && slice.index == old(slice).index && slice.responses == old(slice).responses && slice.sequence == old(slice).sequence
      ensures !ok ==> Value() == old(Value())
    {
      if Terminal(status) {
        return false;
      }
      var readOnly := OnlyReads(pending);
      if readOnly {
        status, pauseReason, blockReason := Cancelled, None, None;
        ClearActiveWorkingData();
      } else {
        status, blockReason := Blocked, Some(AmbiguousToolEffect);
      }
      ok := true;
    }

    /** The goal's part of a resume; one that is refused leaves the acceptance of the workspace behind. */
    method Resume(refused: bool)
      modifies this
      ensures Value() == Resumed(old(Value()), refused)
      ensures old(status) in {Completed, Failed, Cancelled} ==> Value() == old(Value())
      ensures old(status) !in {Completed, Failed, Cancelled} ==>
        Value() == old(Value()).(superseded := superseded,
                                 status := if refused then old(status) else Queued,
                                 pauseReason := if refused then old(pauseReason) else None,
                                 blockReason := if refused then old(blockReason) else None)
      ensures superseded == if old(status) == Blocked && old(blockReason) == Some(WorkspaceConflict)
                            then SupersedeAll(receipts, old(superseded)) else old(superseded)
    {
      if Terminal(status) {
        return;
      }
      if status == Blocked && blockReason == Some(WorkspaceConflict) {
        superseded := SupersedeAll(receipts, superseded);
      }
      if !refused {
        status, pauseReason, blockReason := Queued, None, None;
      }
    }

    /** The goal's part of a budget that is extended; it goes on only if the budget had paused it. */
    method Extend() returns (launch: bool)
      modifies this
      ensures Value() == Extended(old(Value()))
      ensures launch <==> old(status) == Paused && old(pauseReason) == Some(BudgetPause)
      ensures Value() == if launch then old(Value()).(status := Queued, pauseReason := None) else old(Value())
    {
      launch := status == Paused && pauseReason == Some(BudgetPause);
      if launch {
        status, pauseReason := Queued, None;
      }
    }

    method Steer() returns (ok: bool)
      modifies this
      ensures Value() == Steered(old(Value()))
      ensures ok <==> old(status) !in {Completed, Failed, Cancelled}
      ensures Value() == if ok then old(Value()).(steering := old(steering) + 1) else old(Value())
    {
      ok := !Terminal(status);
      if ok {
        steering := steering + 1;
      }
    }

    /** The goal as a new process finds it on disk; one that was under way is paused. */
    method Reload(saved: seq<string>)
      modifies this
      ensures Value() == RestartPrepared(old(Value()).(superseded := saved))
      ensures Value() == if old(status) in {Completed, Failed, Cancelled, Paused, Blocked}
                         then old(Value()).(superseded := saved)
                         else old(Value()).(superseded := saved, status := Paused, pauseReason := Some(AppRestarted), blockReason := None)
    {
      superseded := saved;
      if !Resting(status) {
        status, pauseReason, blockReason := Paused, Some(AppRestarted), None;
      }
    }

    method AwaitApproval()
      modifies this
      ensures Value() == ApprovalAwaited(old(Value()))
      ensures Value() == if old(status) in {Completed, Failed, Cancelled} then old(Value())
                         else old(Value()).(status := AwaitingApproval)
    {
      if !Terminal(status) {
        status := AwaitingApproval;
      }
    }

    method DecideApproval()
      modifies this
      ensures Value() == ApprovalDecided(old(Value()))
      ensures Value() == if old(status) == AwaitingApproval then old(Value()).(status := Running) else old(Value())
    {
      if status == AwaitingApproval {
        status := Running;
      }
    }

    method StoreFindings(found: Findings)
      modifies this
      ensures Value() == FindingsApplied(old(Value()), found)
      ensures receipts == old(receipts) + found.recovered && pending == Retain(old(pending), found.resolved)
    {
      var j := Applied(JournalOf(Value()), found);
      status, pauseReason, blockReason := j.status, j.pauseReason, j.blockReason;
      pending, receipts, superseded := j.pending, j.receipts, j.superseded;
    }

    method RecordIntent(intent: Intent)
      modifies this
      ensures Value() == old(Value()).(pending := old(pending) + [intent])
    {
      pending := pending + [intent];
    }

    /** Resolves a call, with its receipt if it had an effect. */
    method ResolveIntent(id: string, more: seq<Receipt>)
      modifies this
      ensures Value() == old(Value()).(pending := Retain(old(pending), {id}), receipts := old(receipts) + more)
    {
      pending, receipts := Retain(pending, {id}), receipts + more;
    }

    /** The runner takes the goal up; new steering messages go into its transcript. */
    method TakeUp()
      modifies this
      ensures Value() == TakenUp(old(Value()))
      ensures Value() == old(Value()).(status := Running, pauseReason := None, blockReason := None, injected := old(steering))
    {
      status, pauseReason, blockReason, injected := Running, None, None, steering;
    }

    method Block(reason: BlockReason)
      modifies this
      ensures Value() == BlockedFor(old(Value()), reason)
      ensures Value() == old(Value()).(status := Blocked, blockReason := Some(reason))
    {
      status, blockReason := Blocked, Some(reason);
    }

    method Pause(reason: PauseReason)
      modifies this
      ensures Value() == PausedFor(old(Value()), reason)
      ensures Value() == old(Value()).(status := Paused, pauseReason := Some(reason))
    {
      status, pauseReason := Paused, Some(reason);
    }

    method StoreVerification(decision: Decision) returns (ok: bool)
      modifies this
      ensures Value() == VerificationStored(old(Value()), decision)
      ensures ok <==> old(candidate) != None
      ensures Value() == if ok then old(Value()).(candidate := Some(old(candidate).value.(verification := Some(decision))))
                         else old(Value())
    {
      ok := candidate.Some?;
      if ok {
        candidate := Some(candidate.value.(verification := Some(decision)));
      }
    }

    method DropCandidate()
      modifies this
      ensures Value() == CandidateDropped(old(Value()))
      ensures Value() == old(Value()).(candidate := None)
    {
      candidate := None;
    }

    method CommitCheckpoint(next: Work, counters: Slice, boundary: Boundary, exceeded: bool)
      modifies this
      ensures Value() == CheckpointStored(old(Value()), next, counters, boundary, exceeded)
      ensures ReasonsGiven(old(Value())) ==> ReasonsGiven(Value())
      ensures old(status).Pausing? ==> status.Paused? || status.Blocked?
      ensures Blocking(boundary) ==> status.Blocked?
      ensures exceeded ==> status.Paused? || status.Blocked?
    {
      work, slice := next, counters;
      if boundary.NoProgressBlocked? {
        status, blockReason := Blocked, Some(NoProgress);
      } else if boundary.RunawayGuard? {
        status, blockReason := Blocked, Some(BlockReason.RunawayGuard);
      } else if boundary.Budget? {
        status, pauseReason := Paused, Some(BudgetPause);
      }
      if exceeded && status != Blocked {
        status, pauseReason := Paused, Some(BudgetPause);
      } else if status == Pausing {
        status, pauseReason := Paused, Some(UserPause);
      }
    }

    method CommitCandidate(next: Candidate) returns (pauseRequested: bool)
      modifies this
      ensures Value() == CandidateStored(old(Value()), next) && pauseRequested == old(status).Pausing?
      ensures ReasonsGiven(old(Value())) ==> ReasonsGiven(Value())
      ensures pauseRequested ==> status == Paused && pauseReason == Some(UserPause)
      ensures !pauseRequested ==> status == old(status)
    {
      candidate := Some(next);
      pauseRequested := status == Pausing;
      if pauseRequested {
        status, pauseReason := Paused, Some(UserPause);
      }
    }

    method CommitResult() returns (ok: bool)
      modifies this
      ensures Value() == ResultCommitted(old(Value())) && ok == !Terminal(old(status))
      ensures ok ==> status == Completed && NothingOpen(Value()) && pauseReason == None && blockReason == None
      ensures !ok ==> Value() == old(Value())
    {
      if Terminal(status) {
        return false;
      }
      status, pauseReason, blockReason := Completed, None, None;
      ClearActiveWorkingData();
      ok := true;
    }

    method StopWith(error: RunError)
      modifies this
      ensures Value() == StoppedWith(old(Value()), error)
      ensures Resting(status) && (ReasonsGiven(old(Value())) ==> ReasonsGiven(Value()))
      ensures Resting(old(status)) ==> Value() == old(Value())
    {
      if Terminal(status) || status == Paused || status == Blocked {
        return;
      }
      match error
      case ProviderLost => status, pauseReason := Paused, Some(ProviderUnavailable);
      case RunCancelled =>
        status, pauseReason := Cancelled, None;
        ClearActiveWorkingData();
      case Runaway => status, blockReason := Blocked, Some(BlockReason.RunawayGuard);
      case Storage => status, blockReason := Blocked, Some(StorageLocked);
      case InvalidResult => status, blockReason := Blocked, Some(RuntimeInvariant);
      case InvalidModelResponse => status, blockReason := Blocked, Some(ModelResponseInvalid);
      case InvalidCandidate => status, blockReason := Blocked, Some(CompletionCandidateInvalid);
      case InvalidVerifier => status, blockReason := Blocked, Some(VerifierRejected);
    }
  }
}
