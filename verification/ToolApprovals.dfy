/**
 One-shot tool approvals: waiters insert an entry and wait on a channel, a resolver removes
 an entry and sends a decision, and a guard removes the entry when its waiter goes away.
 Each event below is one critical section; approval ids may repeat.
 */
module ToolApprovals {

  datatype Decision = Allow | Deny

  /** The one-shot channel from an entry to its waiter: `Closed` when the sender was dropped unsent. */
  datatype Slot = Empty | Sent(decision: Decision) | Closed

  /** Where the waiter's call stands. Returning and Aborting calls still hold their guard. */
  datatype Phase = Waiting | Refused | Returning(decision: Decision) | Returned(decision: Decision) | Aborting | Aborted

  datatype Waiter = Waiter(approvalId: string, runId: string, slot: Slot, phase: Phase)

  datatype PendingApproval = PendingApproval(runId: string, waiter: nat)

  datatype State = State(pending: map<string, PendingApproval>, waiters: map<nat, Waiter>)

  datatype Resolution = Resolution(runId: string, approvalId: string, decision: Decision)

  datatype Answer = Accepted | Expired | RunMismatch

  datatype Event =
    | Insert(waiter: nat, runId: string, approvalId: string)
    | Resolve(resolution: Resolution)
    | Wake(waiter: nat)
    | Abort(waiter: nat)
    | DropGuard(waiter: nat)

  predicate Guarded(phase: Phase) {
    phase.Waiting? || phase.Returning? || phase.Aborting?
  }

  predicate Ended(phase: Phase) {
    !Guarded(phase)
  }

  // ---- The steps on values ----

  /** Dropping a sender that was never used closes the channel. */
  function DropSender(waiters: map<nat, Waiter>, waiter: nat): map<nat, Waiter> {
    if waiter in waiters && waiters[waiter].slot.Empty? then waiters[waiter := waiters[waiter].(slot := Closed)]
    else waiters
  }

  function DropEntry(waiters: map<nat, Waiter>, pending: map<string, PendingApproval>, id: string): map<nat, Waiter> {
    if id in pending then DropSender(waiters, pending[id].waiter) else waiters
  }

  /** What the resolver is told, and whether the decision reaches a waiter. */
  function AnswerTo(s: State, r: Resolution): Answer {
    if r.approvalId !in s.pending then Expired
    else
      var entry := s.pending[r.approvalId];
      if entry.runId != r.runId then RunMismatch
      else if entry.waiter in s.waiters && s.waiters[entry.waiter].phase.Waiting? then Accepted
      else Expired
  }

  predicate Enabled(s: State, event: Event) {
    match event
    case Insert(w, _, _) => w !in s.waiters
    case Resolve(_) => true
    case Wake(w) => w in s.waiters && s.waiters[w].phase.Waiting? && !s.waiters[w].slot.Empty?
    case Abort(w) => w in s.waiters && s.waiters[w].phase.Waiting?
    case DropGuard(w) => w in s.waiters && (s.waiters[w].phase.Returning? || s.waiters[w].phase.Aborting?)
  }

  /** An event that cannot happen in a state changes nothing. */
  function Step(s: State, event: Event): State {
    if !Enabled(s, event) then s else Happen(s, event)
  }

  function Happen(s: State, event: Event): State
    requires Enabled(s, event)
  {
    match event
    case Insert(w, runId, id) =>
      var phase := if id in s.pending then Refused else Waiting;
      State(s.pending[id := PendingApproval(runId, w)],
            DropEntry(s.waiters, s.pending, id)[w := Waiter(id, runId, Empty, phase)])
    case Resolve(r) =>
      if r.approvalId !in s.pending || s.pending[r.approvalId].runId != r.runId then s
      else
        var w := s.pending[r.approvalId].waiter;
        var rest := s.pending - {r.approvalId};
        if AnswerTo(s, r).Accepted? then State(rest, s.waiters[w := s.waiters[w].(slot := Sent(r.decision))])
        else State(rest, DropSender(s.waiters, w))
    case Wake(w) =>
      var decision := if s.waiters[w].slot.Sent? then s.waiters[w].slot.decision else Deny;
      s.(waiters := s.waiters[w := s.waiters[w].(phase := Returning(decision))])
    case Abort(w) =>
      s.(waiters := s.waiters[w := s.waiters[w].(phase := Aborting)])
    case DropGuard(w) =>
      var id, phase := s.waiters[w].approvalId, s.waiters[w].phase;
      var dropped := DropEntry(s.waiters, s.pending, id);
      var ended := if phase.Returning? then Returned(phase.decision) else Aborted;
      State(s.pending - {id}, if w in dropped then dropped[w := dropped[w].(phase := ended)] else dropped)
  }

  // ---- The registry ----

  class ToolApprovalRegistry {
    var pending: map<string, PendingApproval>
    var waiters: map<nat, Waiter>

    function Value(): State
      reads this
    {
      State(pending, waiters)
    }

    constructor ()
      ensures Value() == State(map[], map[])
    {
      pending, waiters := map[], map[];
    }

    method Drop(id: string)
      modifies this
      ensures pending == old(pending) - {id} && waiters == DropEntry(old(waiters), old(pending), id)
    {
      if id in pending {
        var w := pending[id].waiter;
        pending := pending - {id};
        if w in waiters && waiters[w].slot.Empty? {
          waiters := waiters[w := waiters[w].(slot := Closed)];
        }
      }
    }

    /** The part of the call before it waits; a refused call returns Deny at once, without a guard. */
    method InsertRequest(w: nat, runId: string, id: string) returns (inserted: bool)
      requires w !in waiters
      modifies this
      ensures Value() == Step(old(Value()), Insert(w, runId, id))
      ensures inserted <==> id !in old(pending)
      ensures pending == old(pending)[id := PendingApproval(runId, w)]
      ensures w in waiters && waiters[w] == Waiter(id, runId, Empty, if inserted then Waiting else Refused)
      ensures forall v | v in old(waiters) ::
        v in waiters && waiters[v] == if !inserted && v == old(pending)[id].waiter && old(waiters)[v].slot == Empty
                                      then old(waiters)[v].(slot := Closed) else old(waiters)[v]
    {
      inserted := id !in pending;
      Drop(id);
      pending := pending[id := PendingApproval(runId, w)];
      waiters := waiters[w := Waiter(id, runId, Empty, if inserted then Waiting else Refused)];
    }

    method ResolvePending(r: Resolution) returns (answer: Answer)
      modifies this
      ensures Value() == Step(old(Value()), Resolve(r))
      ensures answer == AnswerTo(old(Value()), r)
      ensures answer == RunMismatch <==> r.approvalId in old(pending) && old(pending)[r.approvalId].runId != r.runId
      ensures answer == Accepted <==>
        && r.approvalId in old(pending) && old(pending)[r.approvalId].runId == r.runId
        && old(pending)[r.approvalId].waiter in old(waiters)
        && old(waiters)[old(pending)[r.approvalId].waiter].phase == Waiting
      ensures answer == RunMismatch ==> pending == old(pending) && waiters == old(waiters)
      ensures answer != RunMismatch ==> pending == old(pending) - {r.approvalId}
      ensures answer == Accepted ==>
        var w := old(pending)[r.approvalId].waiter; waiters == old(waiters)[w := old(waiters)[w].(slot := Sent(r.decision))]
    {
      if r.approvalId !in pending {
        return Expired;
      }
      var entry := pending[r.approvalId];
      if entry.runId != r.runId {
        return RunMismatch;
      }
      if entry.waiter in waiters && waiters[entry.waiter].phase.Waiting? {
        pending := pending - {r.approvalId};
        waiters := waiters[entry.waiter := waiters[entry.waiter].(slot := Sent(r.decision))];
        return Accepted;
      }
      Drop(r.approvalId);
      answer := Expired;
    }

    /** The waiting call is woken by a decision or by the loss of its sender. */
    method WakeWaiter(w: nat) returns (decision: Decision)
      requires w in waiters && waiters[w].phase == Waiting && waiters[w].slot != Empty
      modifies this
      ensures Value() == Step(old(Value()), Wake(w))
      ensures decision == if old(waiters)[w].slot == Closed then Deny else old(waiters)[w].slot.decision
      ensures pending == old(pending) && waiters == old(waiters)[w := old(waiters)[w].(phase := Returning(decision))]
    {
      decision := if waiters[w].slot.Sent? then waiters[w].slot.decision else Deny;
      waiters := waiters[w := waiters[w].(phase := Returning(decision))];
    }

    method AbortWaiter(w: nat)
      requires w in waiters && waiters[w].phase == Waiting
      modifies this
      ensures Value() == Step(old(Value()), Abort(w))
      ensures pending == old(pending) && waiters == old(waiters)[w := old(waiters)[w].(phase := Aborting)]
    {
      waiters := waiters[w := waiters[w].(phase := Aborting)];
    }

    /** The guard removes whatever entry has its id, be it its own or a later one. */
    method DropPendingGuard(w: nat)
      requires w in waiters && (waiters[w].phase == Aborting || waiters[w].phase.Returning?)
      modifies this
      ensures Value() == Step(old(Value()), DropGuard(w))
      ensures pending == old(pending) - {old(waiters)[w].approvalId}
      ensures w in waiters && waiters[w].phase == if old(waiters)[w].phase == Aborting then Aborted
                                                  else Returned(old(waiters)[w].phase.decision)
    {
      var waiter := waiters[w];
      Drop(waiter.approvalId);
      var ended := if waiter.phase.Returning? then Returned(waiter.phase.decision) else Aborted;
      waiters := waiters[w := waiters[w].(phase := ended)];
    }
  }

  // ---- Runs ----

  const START: State := State(map[], map[])

  function After(history: seq<Event>): State {
    if history == [] then START else Step(After(history[..|history| - 1]), history[|history| - 1])
  }

  /** One event on the registry; one that cannot happen is ignored. */
  method Perform(registry: ToolApprovalRegistry, event: Event)
    modifies registry
    ensures registry.Value() == Step(old(registry.Value()), event)
  {
    if !Enabled(registry.Value(), event) {
      return;
    }
    match event
    case Insert(w, runId, id) => var _ := registry.InsertRequest(w, runId, id);
    case Resolve(r) => var _ := registry.ResolvePending(r);
    case Wake(w) => var _ := registry.WakeWaiter(w);
    case Abort(w) => registry.AbortWaiter(w);
    case DropGuard(w) => registry.DropPendingGuard(w);
  }

  /** The registry goes through the states of the run. */
  method Replay(history: seq<Event>) returns (registry: ToolApprovalRegistry)
    ensures fresh(registry) && registry.Value() == After(history)
  {
    registry := new ToolApprovalRegistry();
    for k := 0 to |history|
      invariant fresh(registry) && registry.Value() == After(history[..k])
    {
      assert history[..k + 1][..k] == history[..k];
      Perform(registry, history[k]);
    }
    assert history[..|history|] == history;
  }

  /** The resolution `r` finds waiter `w` waiting under its own run id and approval id. */
  predicate Reaches(s: State, r: Resolution, w: nat) {
    && w in s.waiters
    && s.waiters[w].phase.Waiting?
    && r.approvalId == s.waiters[w].approvalId
    && r.runId == s.waiters[w].runId
    && r.approvalId in s.pending
    && s.pending[r.approvalId].waiter == w
  }

  /** Event `k` of the run delivers `decision` to waiter `w`. */
  predicate DeliveredAt(history: seq<Event>, k: nat, w: nat, decision: Decision) {
    && k < |history|
    && history[k].Resolve?
    && history[k].resolution.decision == decision
    && Reaches(After(history[..k]), history[k].resolution, w)
  }

  ghost predicate Delivered(history: seq<Event>, w: nat, decision: Decision) {
    exists k: nat :: DeliveredAt(history, k, w, decision)
  }

  /** Every entry belongs to a waiter of its id and run whose channel is still unused. */
  ghost predicate EntriesMatch(s: State) {
    forall id | id in s.pending ::
      && s.pending[id].waiter in s.waiters
      && var waiter := s.waiters[s.pending[id].waiter];
         waiter.approvalId == id && waiter.runId == s.pending[id].runId && waiter.slot.Empty?
  }

  ghost predicate Covered(s: State, id: string) {
    exists w :: w in s.waiters && s.waiters[w].approvalId == id && Guarded(s.waiters[w].phase)
  }

  /** Every entry will be removed by a live guard. */
  ghost predicate AllCovered(s: State) {
    forall id | id in s.pending :: Covered(s, id)
  }

  /** A call returns what its channel held. */
  ghost predicate OutcomeMatchesSlot(waiter: Waiter) {
    match waiter.phase
    case Returning(d) => waiter.slot == Sent(d) || (waiter.slot.Closed? && d == Deny)
    case Returned(d) => waiter.slot == Sent(d) || (waiter.slot.Closed? && d == Deny)
    case _ => true
  }

  lemma StepKeepsEntries(s: State, event: Event)
    requires EntriesMatch(s)
    ensures EntriesMatch(Step(s, event))
  {
  }

  lemma StepKeepsOutcomes(s: State, event: Event, w: nat)
    requires w in Step(s, event).waiters
    requires w in s.waiters ==> OutcomeMatchesSlot(s.waiters[w])
    requires EntriesMatch(s)
    ensures OutcomeMatchesSlot(Step(s, event).waiters[w])
  {
  }

  lemma StepKeepsCover(s: State, event: Event)
    requires EntriesMatch(s) && AllCovered(s)
    ensures AllCovered(Step(s, event))
  {
    var t := Step(s, event);
    forall id | id in t.pending
      ensures Covered(t, id)
    {
      if event.Insert? && id == event.approvalId && id !in s.pending {
        assert t.waiters[event.waiter].phase.Waiting?;
      } else {
        var w :| w in s.waiters && s.waiters[w].approvalId == id && Guarded(s.waiters[w].phase);
        assert w in t.waiters && t.waiters[w].approvalId == id;
      }
    }
  }

  lemma {:induction false} Invariants(history: seq<Event>)
    ensures EntriesMatch(After(history)) && AllCovered(After(history))
  {
    if history != [] {
      var front := history[..|history| - 1];
      Invariants(front);
      StepKeepsEntries(After(front), history[|history| - 1]);
      StepKeepsCover(After(front), history[|history| - 1]);
    }
  }

  lemma {:induction false} OutcomesMatchSlots(history: seq<Event>, w: nat)
    requires w in After(history).waiters
    ensures OutcomeMatchesSlot(After(history).waiters[w])
  {
    var front := history[..|history| - 1];
    Invariants(front);
    if w in After(front).waiters {
      OutcomesMatchSlots(front, w);
    }
    StepKeepsOutcomes(After(front), history[|history| - 1], w);
  }

  /** When every call has ended, no entry is left, whatever the interleaving and the ids. */
  lemma NothingLeftBehind(history: seq<Event>)
    requires forall w | w in After(history).waiters :: Ended(After(history).waiters[w].phase)
    ensures After(history).pending == map[]
  {
    Invariants(history);
    var s := After(history);
    assert forall id | id in s.pending :: Covered(s, id);
    assert s.pending.Keys == {};
  }

  // ---- Decisions ----

  lemma DeliveryInPrefix(history: seq<Event>, k: nat, w: nat, decision: Decision)
    requires history != [] && k < |history| - 1
    ensures DeliveredAt(history[..|history| - 1], k, w, decision) == DeliveredAt(history, k, w, decision)
  {
    assert history[..|history| - 1][..k] == history[..k];
  }

  /** A step fills the channel of `w` exactly when it is a resolution that reaches `w`. */
  lemma SentByResolution(s: State, event: Event, w: nat, decision: Decision)
    requires EntriesMatch(s) && w in Step(s, event).waiters
    requires w in s.waiters ==> s.waiters[w].slot != Sent(decision)
    ensures Step(s, event).waiters[w].slot == Sent(decision)
        <==> event.Resolve? && event.resolution.decision == decision && Reaches(s, event.resolution, w)
  {
  }

  lemma {:induction false} SentWasDelivered(history: seq<Event>, w: nat, decision: Decision)
    requires w in After(history).waiters && After(history).waiters[w].slot == Sent(decision)
    ensures Delivered(history, w, decision)
  {
    var n := |history| - 1;
    var front := history[..n];
    var s := After(front);
    if w in s.waiters && s.waiters[w].slot == Sent(decision) {
      SentWasDelivered(front, w, decision);
      var k: nat :| DeliveredAt(front, k, w, decision);
      DeliveryInPrefix(history, k, w, decision);
    } else {
      Invariants(front);
      SentByResolution(s, history[n], w, decision);
      assert DeliveredAt(history, n, w, decision);
    }
  }

  lemma SentStays(s: State, event: Event, w: nat)
    requires w in s.waiters && s.waiters[w].slot.Sent? && EntriesMatch(s)
    ensures w in Step(s, event).waiters && Step(s, event).waiters[w].slot == s.waiters[w].slot
  {
  }

  lemma {:induction false} DeliveredStaysSent(history: seq<Event>, k: nat, w: nat, decision: Decision)
    requires DeliveredAt(history, k, w, decision)
    ensures w in After(history).waiters && After(history).waiters[w].slot == Sent(decision)
  {
    var n := |history| - 1;
    Invariants(history[..n]);
    if k < n {
      DeliveryInPrefix(history, k, w, decision);
      DeliveredStaysSent(history[..n], k, w, decision);
      SentStays(After(history[..n]), history[n], w);
    }
  }

  /** Each waiter is resolved at most once. */
  lemma {:induction false} DeliveredOnce(history: seq<Event>, j: nat, k: nat, w: nat, a: Decision, b: Decision)
    requires DeliveredAt(history, j, w, a) && DeliveredAt(history, k, w, b)
    ensures j == k && a == b
  {
    if j < k {
      assert history[..k][..j] == history[..j];
      DeliveredStaysSent(history[..k], j, w, a);
      Invariants(history[..k]);
    } else if k < j {
      assert history[..j][..k] == history[..k];
      DeliveredStaysSent(history[..j], k, w, b);
      Invariants(history[..j]);
    }
  }

  /** The decision a call has taken, if it has taken one. */
  predicate Takes(waiter: Waiter, decision: Decision) {
    waiter.phase == Returning(decision) || waiter.phase == Returned(decision)
  }

  /**
   A call that takes a decision takes Allow exactly when an Allow for its run id and approval
   id was delivered to this very call.
   */
  lemma AllowExactlyWhenDelivered(history: seq<Event>, w: nat)
    requires w in After(history).waiters
    requires Takes(After(history).waiters[w], Allow) || Takes(After(history).waiters[w], Deny)
    ensures Takes(After(history).waiters[w], Allow) <==> Delivered(history, w, Allow)
  {
    OutcomesMatchSlots(history, w);
    if Takes(After(history).waiters[w], Allow) {
      SentWasDelivered(history, w, Allow);
    }
    if Delivered(history, w, Allow) {
      var k: nat :| DeliveredAt(history, k, w, Allow);
      DeliveredStaysSent(history, k, w, Allow);
    }
  }

  /** The resolver is told of success exactly when the decision reaches a waiter. */
  lemma AcceptedExactlyWhenReaching(history: seq<Event>, r: Resolution)
    ensures AnswerTo(After(history), r).Accepted? <==> exists w: nat :: Reaches(After(history), r, w)
  {
    Invariants(history);
    var s := After(history);
    if AnswerTo(s, r).Accepted? {
      assert Reaches(s, r, s.pending[r.approvalId].waiter);
    }
  }

  // ---- Repeated ids ----

  /**
   A waiting call loses its sender without a decision exactly when another call of the same
   approval id is inserted over its entry or drops its guard.
   */
  lemma SenderLostToSameId(s: State, event: Event, w: nat)
    requires EntriesMatch(s) && Enabled(s, event)
    requires w in s.waiters && s.waiters[w].phase.Waiting? && s.waiters[w].slot.Empty?
    requires s.waiters[w].approvalId in s.pending && s.pending[s.waiters[w].approvalId].waiter == w
    ensures Step(s, event).waiters[w].slot.Closed? <==>
      || (event.Insert? && event.approvalId == s.waiters[w].approvalId)
      || (event.DropGuard? && event.waiter != w && s.waiters[event.waiter].approvalId == s.waiters[w].approvalId)
  {
  }

  /** A call that waits undecided has its entry; a refused call is never decided. */
  ghost predicate WaitingHasEntry(s: State) {
    && (forall w | w in s.waiters && s.waiters[w].phase.Waiting? && s.waiters[w].slot.Empty? ::
          s.waiters[w].approvalId in s.pending && s.pending[s.waiters[w].approvalId].waiter == w)
    && (forall w | w in s.waiters && s.waiters[w].phase.Refused? :: !s.waiters[w].slot.Sent?)
  }

  lemma StepKeepsWaiting(s: State, event: Event)
    requires EntriesMatch(s) && WaitingHasEntry(s)
    ensures WaitingHasEntry(Step(s, event))
  {
  }

  lemma {:induction false} WaitingKeepsEntry(history: seq<Event>)
    ensures WaitingHasEntry(After(history))
  {
    if history != [] {
      var front := history[..|history| - 1];
      Invariants(front);
      WaitingKeepsEntry(front);
      StepKeepsWaiting(After(front), history[|history| - 1]);
    }
  }

  /** While call `w` waits undecided, another call of its id is inserted or drops its guard. */
  predicate LostAt(history: seq<Event>, k: nat, w: nat) {
    && k < |history|
    && var s, event := After(history[..k]), history[k];
       && Enabled(s, event)
       && w in s.waiters && s.waiters[w].phase.Waiting? && s.waiters[w].slot.Empty?
       && (|| (event.Insert? && event.approvalId == s.waiters[w].approvalId)
           || (event.DropGuard? && event.waiter != w && s.waiters[event.waiter].approvalId == s.waiters[w].approvalId))
  }

  ghost predicate Lost(history: seq<Event>, w: nat) {
    exists k: nat :: LostAt(history, k, w)
  }

  /** The call waits, or has taken what its channel held. */
  predicate NotAborted(phase: Phase) {
    phase.Waiting? || phase.Returning? || phase.Returned?
  }

  lemma ClosedByLoss(s: State, event: Event, w: nat)
    requires EntriesMatch(s) && WaitingHasEntry(s) && w in Step(s, event).waiters
    requires w in s.waiters ==> OutcomeMatchesSlot(s.waiters[w])
    requires Step(s, event).waiters[w].slot.Closed? && NotAborted(Step(s, event).waiters[w].phase)
    ensures w in s.waiters && NotAborted(s.waiters[w].phase)
    ensures s.waiters[w].slot.Closed?
         || (Enabled(s, event) && s.waiters[w].phase.Waiting? && s.waiters[w].slot.Empty? && Step(s, event).waiters[w].slot.Closed?)
  {
  }

  lemma {:induction false} ClosedWasLost(history: seq<Event>, w: nat)
    requires w in After(history).waiters
    requires After(history).waiters[w].slot.Closed? && NotAborted(After(history).waiters[w].phase)
    ensures Lost(history, w)
  {
    var n := |history| - 1;
    var front := history[..n];
    var s := After(front);
    Invariants(front);
    WaitingKeepsEntry(front);
    if w in s.waiters {
      OutcomesMatchSlots(front, w);
    }
    ClosedByLoss(s, history[n], w);
    if s.waiters[w].slot.Closed? {
      ClosedWasLost(front, w);
      var k: nat :| LostAt(front, k, w);
      assert front[..k] == history[..k];
      assert LostAt(history, k, w);
    } else {
      SenderLostToSameId(s, history[n], w);
      assert LostAt(history, n, w);
    }
  }

  lemma ClosedStays(s: State, event: Event, w: nat)
    requires EntriesMatch(s) && w in s.waiters && s.waiters[w].slot.Closed?
    ensures w in Step(s, event).waiters && Step(s, event).waiters[w].slot.Closed?
  {
  }

  lemma {:induction false} LostStaysClosed(history: seq<Event>, k: nat, w: nat)
    requires LostAt(history, k, w)
    ensures w in After(history).waiters && After(history).waiters[w].slot.Closed?
  {
    var n := |history| - 1;
    var front := history[..n];
    Invariants(front);
    if k == n {
      WaitingKeepsEntry(front);
      SenderLostToSameId(After(front), history[n], w);
    } else {
      assert front[..k] == history[..k];
      LostStaysClosed(front, k, w);
      ClosedStays(After(front), history[n], w);
    }
  }

  /**
   A call that is denied was denied by nobody exactly when it was refused, or when another call
   of its id was inserted or dropped its guard while it waited.
   */
  lemma DeniedByNobodyExactly(history: seq<Event>, w: nat)
    requires w in After(history).waiters
    requires After(history).waiters[w].phase.Refused? || Takes(After(history).waiters[w], Deny)
    ensures !Delivered(history, w, Deny) <==> After(history).waiters[w].phase.Refused? || Lost(history, w)
  {
    OutcomesMatchSlots(history, w);
    WaitingKeepsEntry(history);
    if Delivered(history, w, Deny) {
      var k: nat :| DeliveredAt(history, k, w, Deny);
      DeliveredStaysSent(history, k, w, Deny);
    } else if After(history).waiters[w].slot == Sent(Deny) {
      SentWasDelivered(history, w, Deny);
    } else if !After(history).waiters[w].phase.Refused? {
      ClosedWasLost(history, w);
    }
    if k: nat :| LostAt(history, k, w) {
      LostStaysClosed(history, k, w);
    }
  }

  /** No approval id is requested twice. */
  ghost predicate UniqueIds(history: seq<Event>) {
    forall i, j | 0 <= i < j < |history| && history[i].Insert? && history[j].Insert? ::
      history[i].approvalId != history[j].approvalId
  }

  ghost predicate Requested(history: seq<Event>, id: string) {
    exists i | 0 <= i < |history| :: history[i].Insert? && history[i].approvalId == id
  }

  /** With unique ids every id has one waiter, and a channel is closed only by its own abort. */
  ghost predicate OneWaiterEach(s: State) {
    && (forall a, b | a in s.waiters && b in s.waiters && s.waiters[a].approvalId == s.waiters[b].approvalId :: a == b)
    && (forall w | w in s.waiters :: !s.waiters[w].phase.Refused?)
    && (forall w | w in s.waiters && s.waiters[w].slot.Closed? :: s.waiters[w].phase.Aborted? || s.waiters[w].phase.Aborting?)
  }

  lemma StepKeepsOneWaiterEach(s: State, event: Event)
    requires EntriesMatch(s) && OneWaiterEach(s)
    requires forall w | w in s.waiters :: OutcomeMatchesSlot(s.waiters[w])
    requires event.Insert? ==> forall w | w in s.waiters :: s.waiters[w].approvalId != event.approvalId
    ensures OneWaiterEach(Step(s, event))
  {
  }

  lemma {:induction false} WaitersWereRequested(history: seq<Event>, w: nat)
    requires w in After(history).waiters
    ensures Requested(history, After(history).waiters[w].approvalId)
  {
    var n := |history| - 1;
    var front := history[..n];
    if w in After(front).waiters {
      WaitersWereRequested(front, w);
      var i :| 0 <= i < n && front[i].Insert? && front[i].approvalId == After(front).waiters[w].approvalId;
      assert history[i] == front[i];
    } else {
      assert history[n].Insert?;
    }
  }

  lemma {:induction false} UniqueIdsOneWaiterEach(history: seq<Event>)
    requires UniqueIds(history)
    ensures OneWaiterEach(After(history))
  {
    if history != [] {
      var n := |history| - 1;
      var front := history[..n];
      var s := After(front);
      UniqueIdsOneWaiterEach(front);
      Invariants(front);
      forall w | w in s.waiters
        ensures OutcomeMatchesSlot(s.waiters[w])
        ensures history[n].Insert? ==> s.waiters[w].approvalId != history[n].approvalId
      {
        OutcomesMatchSlots(front, w);
        WaitersWereRequested(front, w);
        var i :| 0 <= i < n && front[i].Insert? && front[i].approvalId == s.waiters[w].approvalId;
        assert history[i] == front[i];
      }
      StepKeepsOneWaiterEach(s, history[n]);
    }
  }

  /** With unique ids no call is refused, and a call returns exactly the decision delivered to it. */
  lemma UniqueIdsReturnTheDecision(history: seq<Event>, w: nat, decision: Decision)
    requires UniqueIds(history) && w in After(history).waiters
    ensures !After(history).waiters[w].phase.Refused?
    ensures Takes(After(history).waiters[w], decision) ==> Delivered(history, w, decision)
  {
    UniqueIdsOneWaiterEach(history);
    if Takes(After(history).waiters[w], decision) {
      OutcomesMatchSlots(history, w);
      SentWasDelivered(history, w, decision);
    }
  }

  /** The first call is allowed, the second enters its entry, the first drops its guard. */
  function LateGuard(runId: string, id: string): seq<Event> {
    [Insert(0, runId, id), Resolve(Resolution(runId, id, Allow)), Insert(1, runId, id), Wake(0), DropGuard(0), Wake(1),
     DropGuard(1)]
  }

  lemma AllowedThenLate(runId: string, id: string)
    ensures After(LateGuard(runId, id)[..2]) == State(map[], map[0 := Waiter(id, runId, Sent(Allow), Waiting)])
    ensures After(LateGuard(runId, id)[..1]).waiters == map[0 := Waiter(id, runId, Empty, Waiting)]
  {
    var history := LateGuard(runId, id);
    Unfold(history, 0);
    Unfold(history, 1);
    Unfold(history, 2);
  }

  /** The two calls of `LateGuard` in state `s`. */
  predicate Calls(s: State, first: Waiter, second: Waiter) {
    0 in s.waiters && s.waiters[0] == first && 1 in s.waiters && s.waiters[1] == second
  }

  lemma LateEntryIsPending(runId: string, id: string)
    ensures var s := After(LateGuard(runId, id)[..4]);
            && s.pending == map[id := PendingApproval(runId, 1)]
            && Calls(s, Waiter(id, runId, Sent(Allow), Returning(Allow)), Waiter(id, runId, Empty, Waiting))
  {
    AllowedThenLate(runId, id);
    Unfold(LateGuard(runId, id), 3);
    var s := After(LateGuard(runId, id)[..3]);
    assert s.pending == map[id := PendingApproval(runId, 1)];
    assert Calls(s, Waiter(id, runId, Sent(Allow), Waiting), Waiter(id, runId, Empty, Waiting));
    Unfold(LateGuard(runId, id), 4);
  }

  lemma LateEntryIsDropped(runId: string, id: string)
    ensures Calls(After(LateGuard(runId, id)[..5]), Waiter(id, runId, Sent(Allow), Returned(Allow)),
                  Waiter(id, runId, Closed, Waiting))
  {
    LateEntryIsPending(runId, id);
    Unfold(LateGuard(runId, id), 5);
  }

  /** With a repeated id a late guard can deny a call that nobody decided on. */
  lemma RepeatedIdMayBeDenied(runId: string, id: string)
    ensures var history := LateGuard(runId, id);
            && 1 in After(history).waiters
            && After(history).waiters[1].phase == Returned(Deny)
            && !Delivered(history, 1, Deny)
  {
    var history := LateGuard(runId, id);
    LateEntryIsDropped(runId, id);
    Unfold(history, 6);
    Unfold(history, 7);
    assert history[..7] == history;
    AllowedThenLate(runId, id);
    forall k: nat
      ensures !DeliveredAt(history, k, 1, Deny)
    {
      assert k < |history| && history[k].Resolve? ==> k == 1;
    }
  }

  lemma Unfold(history: seq<Event>, k: nat)
    requires k <= |history|
    ensures After(history[..k]) == if k == 0 then START else Step(After(history[..k - 1]), history[k - 1])
  {
    if k > 0 {
      assert history[..k][..k - 1] == history[..k - 1];
    }
  }
}
