/**
 The journal with crashes, step by step: the goal in memory, the goal on disk, the files, and the
 tool calls of the current process. An event that cannot happen in a state changes nothing.

 A step assumes only that execution ids are fresh, that an intent names the digest its file has,
 that every file can be read and that nobody else writes them. What the recovery needs beyond
 that is the predicate `Careful`, and what it keeps then is the predicate `Invariant`. Whole runs
 are the subject of `JournalRuns`.
 */
module JournalSteps {
  import opened GoalStatus
  import opened Options
  import opened ToolJournal

  /** Which file a resource leads to; the journal knows files by their spelling only. */
  type Target = string -> string

  /** The digests of the files that exist. */
  type Files = map<string, string>

  const ABSENT: string := "absent"

  function Current(files: Files, file: string): string {
    if file in files then files[file] else ABSENT
  }

  function Put(files: Files, file: string, digest: string): Files {
    if digest == ABSENT then files - {file} else files[file := digest]
  }

  function Reading(target: Target, files: Files): string -> FileState {
    resource => if target(resource) in files then Present(files[target(resource)]) else Missing
  }

  /** A goal's journal, and the files it started from or was last confirmed against. */
  datatype Book = Book(journal: Journal, baseline: Files)

  /**
   `awaiting` are the calls whose result is still awaited, `ahead` the writes whose effect may
   still come, `done` the writes of this process that have taken effect, with the digest they
   left. `found` are the findings of the reconciliations of this process, which may be stored at
   any later time.
   */
  datatype State = State(target: Target, mem: Book, disk: Book, files: Files, awaiting: set<Intent>, ahead: set<Intent>,
                         done: map<Intent, string>, found: set<Findings>, used: set<string>)

  datatype Event =
    | RecordIntent(intent: Intent, saved: bool)
    | Effect(intent: Intent, left: string)
    | RecordReceipt(intent: Intent, receipt: Receipt, saved: bool)
    | RecordOther(intent: Intent, receipt: Receipt, saved: bool)
    | RecordNoEffect(intent: Intent, saved: bool)
    | GiveUp(intent: Intent)
    | Settle(intent: Intent)
    | ChangeStatus(status: Status, pauseReason: Option<PauseReason>, blockReason: Option<BlockReason>, saved: bool)
    | Finish(status: Status, saved: bool)
    | AcceptWorkspace(accepted: bool)
    | Crash
    | Classify
    | Apply(findings: Findings, saved: bool)

  function Pending(s: State): set<Intent> {
    set p | p in s.mem.journal.pending
  }

  /** `p` is a complete write of this file. */
  predicate Writes(target: Target, p: Intent, file: string) {
    CompleteWrite(p) && target(p.resource.value) == file
  }

  function FileOf(target: Target, p: Intent): string
    requires CompleteWrite(p)
  {
    target(p.resource.value)
  }

  function Start(target: Target, files: Files): State {
    var book := Book(Journal(Queued, None, None, [], [], [], []), files);
    State(target, book, book, files, {}, {}, map[], {}, {})
  }

  // ---- Steps ----

  ghost predicate Enabled(s: State, event: Event) {
    var j := s.mem.journal;
    match event
    case RecordIntent(i, _) =>
      && !Terminal(j.status)
      && i.executionId !in s.used
      && (CompleteWrite(i) ==> i.before.value == Current(s.files, FileOf(s.target, i)))
    case Effect(i, left) =>
      // A patch reads its file again, and may leave anything if the file is not as it was.
      && i in s.ahead && CompleteWrite(i)
      && (i.toolName == "filesystem.write" || Current(s.files, FileOf(s.target, i)) == i.before.value ==> left == i.after.value)
    case RecordReceipt(i, receipt, _) =>
      !Terminal(j.status) && i in s.awaiting && i in s.done && CompleteWrite(i) && ReceiptOf(receipt, i, s.done[i])
    case RecordOther(i, receipt, _) =>
      && !Terminal(j.status) && i in s.awaiting && !CompleteWrite(i)
      && !receipt.Mutation? && receipt.executionId == i.executionId
    case RecordNoEffect(i, _) => !Terminal(j.status) && i in s.awaiting && i.risk == ReadOnly
    case GiveUp(_) => true
    case Settle(_) => true
    case ChangeStatus(status, _, _, _) => !Terminal(status)
    case Finish(status, _) => Terminal(status)
    case AcceptWorkspace(_) => j.status.Blocked? && j.blockReason == Some(WorkspaceConflict)
    case Crash => true
    case Classify => FindingsOf(j, Reading(s.target, s.files)).Some?
    case Apply(f, _) => f in s.found
  }

  /** The receipt of a write names the digest that it left. */
  predicate ReceiptOf(receipt: Receipt, i: Intent, left: string)
    requires CompleteWrite(i)
  {
    receipt.Mutation? && receipt.executionId == i.executionId && receipt.resource == i.resource.value && receipt.after == left
  }

  /**
   What the recovery relies on: a write is recorded only when no other write of its file is
   pending or under way, a goal is classified only when no effect can still come and finished
   only when no write is pending, and findings are stored only while their receipts are true.
   */
  ghost predicate Careful(s: State, event: Event) {
    match event
    case RecordIntent(i, _) =>
      CompleteWrite(i) ==> forall p | p in Active(s) :: !Writes(s.target, p, FileOf(s.target, i))
    case Finish(_, _) => NoWritePending(s.mem.journal)
    case Classify => s.ahead == {}
    case Apply(f, _) => StillTrue(s.target, s.files, f.recovered, s.mem.journal.superseded)
    case _ => true
  }

  /** Each of these receipts that counts names the digest of its file. */
  ghost predicate StillTrue(target: Target, files: Files, receipts: seq<Receipt>, superseded: seq<string>) {
    forall r | r in receipts && Counts(r, superseded) :: Current(files, target(r.resource)) == r.after
  }

  /** No complete write is pending. */
  ghost predicate NoWritePending(j: Journal) {
    forall p | p in j.pending :: !CompleteWrite(p)
  }

  /** The calls that may still change or explain a file. */
  function Active(s: State): set<Intent> {
    Pending(s) + s.awaiting + s.ahead
  }

  function Calls(s: State): set<Intent> {
    Active(s) + s.done.Keys
  }

  /** A change of the goal that is saved reaches memory and disk; one whose save fails is undone. */
  function Commit(s: State, journal: Journal, saved: bool): State {
    if saved then s.(mem := s.mem.(journal := journal), disk := s.mem.(journal := journal)) else s
  }

  /** A goal that was under way when the process ended is paused. */
  function Restarted(b: Book): Book {
    var j := b.journal;
    if Terminal(j.status) || j.status.Paused? || j.status.Blocked? then b
    else b.(journal := j.(status := Paused, pauseReason := Some(AppRestarted), blockReason := None))
  }

  function Resolved(j: Journal, i: Intent, receipts: seq<Receipt>): Journal {
    j.(pending := Retain(j.pending, {i.executionId}), receipts := j.receipts + receipts)
  }

  /** The book of a goal whose user confirmed the files as they are. */
  function Confirmed(b: Book, files: Files): Book {
    var j := b.journal;
    Book(j.(superseded := SupersedeAll(j.receipts, j.superseded), notices := j.notices + [WorkspaceNotice]), files)
  }

  function Resumed(b: Book): Book {
    b.(journal := b.journal.(status := Queued, pauseReason := None, blockReason := None))
  }

  ghost function Happen(s: State, event: Event): State
    requires Enabled(s, event)
  {
    var j := s.mem.journal;
    match event
    case RecordIntent(i, saved) =>
      var t := Commit(s, j.(pending := j.pending + [i]), saved);
      t.(used := s.used + {i.executionId},
         awaiting := if saved then s.awaiting + {i} else s.awaiting,
         ahead := if saved && CompleteWrite(i) then s.ahead + {i} else s.ahead)
    case Effect(i, left) =>
      s.(files := Put(s.files, FileOf(s.target, i), left), ahead := s.ahead - {i}, done := s.done[i := left])
    case RecordReceipt(i, receipt, saved) => Commit(s, Resolved(j, i, [receipt]), saved).(awaiting := s.awaiting - {i})
    case RecordOther(i, receipt, saved) => Commit(s, Resolved(j, i, [receipt]), saved).(awaiting := s.awaiting - {i})
    case RecordNoEffect(i, saved) => Commit(s, Resolved(j, i, []), saved).(awaiting := s.awaiting - {i})
    case GiveUp(i) => s.(awaiting := s.awaiting - {i})
    case Settle(i) => s.(ahead := s.ahead - {i})
    case ChangeStatus(status, pauseReason, blockReason, saved) =>
      Commit(s, j.(status := status, pauseReason := pauseReason, blockReason := blockReason), saved)
    case Finish(status, saved) =>
      Commit(s, j.(status := status, pauseReason := None, blockReason := None, pending := []), saved)
    case AcceptWorkspace(accepted) =>
      // A refusal after the receipts were superseded leaves memory changed and disk not.
      var confirmed := Confirmed(s.mem, s.files);
      if accepted then s.(mem := Resumed(confirmed), disk := Resumed(confirmed)) else s.(mem := confirmed)
    case Crash =>
      s.(mem := Restarted(s.disk), disk := Restarted(s.disk), awaiting := {}, ahead := {}, done := map[], found := {})
    case Classify => s.(found := s.found + {FindingsOf(j, Reading(s.target, s.files)).value})
    case Apply(f, saved) => Commit(s, Applied(j, f), saved)
  }

  ghost function Step(s: State, event: Event): State {
    if Enabled(s, event) then Happen(s, event) else s
  }

  // ---- What careful steps keep ----

  /** The digest the last receipt that counts leaves a file with, under whatever spelling. */
  function LastOn(target: Target, receipts: seq<Receipt>, superseded: seq<string>, file: string): Option<string> {
    if receipts == [] then None
    else
      var last := receipts[|receipts| - 1];
      if Counts(last, superseded) && target(last.resource) == file then Some(last.after)
      else LastOn(target, receipts[..|receipts| - 1], superseded, file)
  }

  /** The digest a file should have: the last receipt's, or else the one it was confirmed with. */
  function Known(target: Target, b: Book, file: string): string {
    var last := LastOn(target, b.journal.receipts, b.journal.superseded, file);
    if last.Some? then last.value else Current(b.baseline, file)
  }

  /** A file with a pending write is before or after it; any other is as the receipts say. */
  ghost predicate Tracked(target: Target, b: Book, files: Files, file: string) {
    && (forall p | p in b.journal.pending && Writes(target, p, file) ::
          || Current(files, file) == p.after.value
          || Current(files, file) == p.before.value == Known(target, b, file))
    && ((forall p | p in b.journal.pending :: !Writes(target, p, file)) ==> Known(target, b, file) == Current(files, file))
  }

  ghost predicate AllTracked(target: Target, b: Book, files: Files) {
    forall file :: Tracked(target, b, files, file)
  }

  ghost predicate OneWriteEach(target: Target, calls: set<Intent>) {
    forall p, q | p in calls && q in calls && CompleteWrite(p) && CompleteWrite(q)
               && FileOf(target, p) == FileOf(target, q) :: p == q
  }

  ghost predicate IdsIdentify(calls: set<Intent>) {
    forall p, q | p in calls && q in calls && p.executionId == q.executionId :: p == q
  }

  /** Pending ids are used ids, and no receipt or superseded entry has one of them. */
  ghost predicate IdsApart(j: Journal, used: set<string>) {
    && (forall p | p in j.pending :: p.executionId in used && p.executionId !in j.superseded)
    && (forall r | r in j.receipts :: r.executionId in used && forall p | p in j.pending :: p.executionId != r.executionId)
    && (forall id | id in j.superseded :: id in used)
  }

  /** Effects that may come are of pending writes whose files are as they found them; awaited effects show in their files. */
  ghost predicate CallsOk(s: State) {
    && (forall p | p in Calls(s) :: p.executionId in s.used)
    && s.ahead !! s.done.Keys
    && (forall p | p in s.ahead ::
          p in s.mem.journal.pending && CompleteWrite(p) && Current(s.files, FileOf(s.target, p)) == p.before.value)
    && (forall p | p in s.awaiting && p in s.done && CompleteWrite(p) ::
          s.done[p] == p.after.value == Current(s.files, FileOf(s.target, p)))
  }

  ghost predicate SameBooks(a: Journal, b: Journal) {
    a.pending == b.pending && a.receipts == b.receipts
  }

  ghost predicate BookOk(target: Target, b: Book, files: Files, used: set<string>) {
    AllTracked(target, b, files) && IdsApart(b.journal, used)
  }

  ghost predicate Core(s: State) {
    && SameBooks(s.mem.journal, s.disk.journal)
    && IdsIdentify(Calls(s))
    && OneWriteEach(s.target, Active(s))
    && BookOk(s.target, s.mem, s.files, s.used)
    && BookOk(s.target, s.disk, s.files, s.used)
    && CallsOk(s)
  }

  /** The file of this write is the known one. */
  predicate KnownNow(s: State, p: Intent)
    requires CompleteWrite(p)
  {
    var file := FileOf(s.target, p);
    Known(s.target, s.mem, file) == Known(s.target, s.disk, file) == Current(s.files, file)
  }

  ghost predicate HasReceiptOf(target: Target, receipts: seq<Receipt>, p: Intent)
    requires CompleteWrite(p)
  {
    exists r :: r in receipts && r.Mutation? && r.executionId == p.executionId && target(r.resource) == FileOf(target, p)
  }

  /** A write that the findings resolve has a receipt among them, or left no trace. */
  ghost predicate Explains(s: State, f: Findings) {
    forall p | p in s.mem.journal.pending && p.executionId in f.resolved && CompleteWrite(p) ::
      HasReceiptOf(s.target, f.recovered, p) || KnownNow(s, p)
  }

  /** Findings that are made on careful terms, as long as they are not stored. */
  ghost predicate FoundOk(s: State, f: Findings) {
    && (forall id | id in f.resolved :: id in s.used)
    && (forall p | p in s.ahead :: p.executionId !in f.resolved)
    && (forall r | r in f.recovered :: r.Mutation? && r.executionId in f.resolved)
    && (forall a, b | a in f.recovered && b in f.recovered && a.Mutation? && b.Mutation?
                   && s.target(a.resource) == s.target(b.resource) :: a == b)
    && Explains(s, f)
  }

  ghost predicate Invariant(s: State) {
    && Core(s)
    && forall f | f in s.found :: FoundOk(s, f)
  }

  // ---- Single steps ----

  lemma IntentStep(s: State, i: Intent)
    requires Enabled(s, RecordIntent(i, true))
    ensures var book := WithPending(s.mem, s.mem.journal.pending + [i]);
            Step(s, RecordIntent(i, true)).(ahead := {})
            == s.(mem := book, disk := book, used := s.used + {i.executionId}, awaiting := s.awaiting + {i}, ahead := {})
    ensures Step(s, RecordIntent(i, true)).ahead == if CompleteWrite(i) then s.ahead + {i} else s.ahead
  {
  }

  lemma EffectStep(s: State, i: Intent, left: string)
    requires Enabled(s, Effect(i, left))
    ensures Step(s, Effect(i, left))
         == s.(files := Put(s.files, FileOf(s.target, i), left), ahead := s.ahead - {i}, done := s.done[i := left])
  {
  }

  lemma RetainOne(p: Intent)
    ensures Retain([p], {p.executionId}) == []
  {
    assert [p][..0] == [];
  }

  lemma ReceiptStep(s: State, i: Intent, receipt: Receipt)
    requires Enabled(s, RecordReceipt(i, receipt, true))
    ensures var book := s.mem.(journal := Resolved(s.mem.journal, i, [receipt]));
            Step(s, RecordReceipt(i, receipt, true)) == s.(mem := book, disk := book, awaiting := s.awaiting - {i})
  {
  }

  // ---- Receipts by file ----

  /** The last receipt of each spelling is the last one of its file. */
  ghost predicate SpellingsAgree(target: Target, j: Journal) {
    forall resource | LastDigest(j.receipts, j.superseded, resource).Some? ::
      LastDigest(j.receipts, j.superseded, resource) == LastOn(target, j.receipts, j.superseded, target(resource))
  }

  lemma OneMoreOn(target: Target, receipts: seq<Receipt>, superseded: seq<string>, more: Receipt, file: string)
    ensures LastOn(target, receipts + [more], superseded, file)
         == if Counts(more, superseded) && target(more.resource) == file then Some(more.after)
            else LastOn(target, receipts, superseded, file)
  {
    assert (receipts + [more])[..|receipts|] == receipts;
  }

  lemma {:induction false} SpellingHasFile(target: Target, receipts: seq<Receipt>, superseded: seq<string>, resource: string)
    requires LastDigest(receipts, superseded, resource).Some?
    ensures LastOn(target, receipts, superseded, target(resource)).Some?
  {
    var last := receipts[|receipts| - 1];
    if !(Counts(last, superseded) && target(last.resource) == target(resource)) {
      SpellingHasFile(target, receipts[..|receipts| - 1], superseded, resource);
    }
  }

  /** If every file is the known one, a spelling matches its file exactly when no other spelling came later. */
  lemma MatchIsAgreement(target: Target, b: Book, files: Files)
    requires forall file :: Current(files, file) == Known(target, b, file)
    ensures ReceiptsMatch(b.journal.receipts, b.journal.superseded, Reading(target, files)) <==> SpellingsAgree(target, b.journal)
  {
    var j := b.journal;
    forall resource | LastDigest(j.receipts, j.superseded, resource).Some?
      ensures Digest(Reading(target, files)(resource)) == LastOn(target, j.receipts, j.superseded, target(resource))
    {
      SpellingHasFile(target, j.receipts, j.superseded, resource);
      assert Current(files, target(resource)) == Known(target, b, target(resource));
    }
  }

  /** Every file was written under one spelling. */
  ghost predicate OneSpelling(target: Target, receipts: seq<Receipt>) {
    forall a, b | a in receipts && b in receipts && a.Mutation? && b.Mutation? && target(a.resource) == target(b.resource) ::
      a.resource == b.resource
  }

  lemma {:induction false} OneSpellingOfFile(target: Target, receipts: seq<Receipt>, superseded: seq<string>, resource: string)
    requires forall r | r in receipts && r.Mutation? && target(r.resource) == target(resource) :: r.resource == resource
    ensures LastDigest(receipts, superseded, resource) == LastOn(target, receipts, superseded, target(resource))
  {
    if receipts != [] {
      var front, last := receipts[..|receipts| - 1], receipts[|receipts| - 1];
      assert receipts == front + [last];
      OneSpellingOfFile(target, front, superseded, resource);
    }
  }

  lemma {:induction false} HasReceipt(receipts: seq<Receipt>, superseded: seq<string>, resource: string) returns (r: Receipt)
    requires LastDigest(receipts, superseded, resource).Some?
    ensures r in receipts && r.Mutation? && r.resource == resource
  {
    var k := LastIsDecisive(receipts, superseded, resource);
    r := receipts[k];
  }

  // ---- Small facts ----

  lemma PutCurrent(files: Files, file: string, digest: string, other: string)
    ensures Current(Put(files, file, digest), other) == if other == file then digest else Current(files, other)
  {
  }

  lemma RetainAllMembers(intents: seq<Intent>, id: string)
    ensures forall i :: i in Retain(intents, {id}) <==> i in intents && i.executionId != id
  {
    forall i
      ensures i in Retain(intents, {id}) <==> i in intents && i.executionId != id
    {
      RetainMember(intents, {id}, i);
    }
  }

  /** Nothing is pending or under way in a goal that runs. */
  predicate Idle(s: State) {
    s.mem.journal.pending == [] && s.awaiting == {} && s.ahead == {} && s.mem.journal.status.Queued?
  }

  /** A write recorded, done and receipted while nothing else is under way. */
  lemma WriteAlone(s: State, p: Intent)
    requires Idle(s) && CompleteWrite(p) && p.executionId !in s.used && p.before.value == Current(s.files, FileOf(s.target, p))
    ensures Careful(s, RecordIntent(p, true))
    ensures var t := Step(Step(Step(s, RecordIntent(p, true)), Effect(p, p.after.value)), RecordReceipt(p, ReceiptFor(p), true));
            && Idle(t) && t.target == s.target && t.used == s.used + {p.executionId} && t.found == s.found
            && t.files == Put(s.files, FileOf(s.target, p), p.after.value)
            && t.mem.journal.receipts == s.mem.journal.receipts + [ReceiptFor(p)]
            && t.mem.journal.superseded == s.mem.journal.superseded
  {
    var one := Step(s, RecordIntent(p, true));
    IntentStep(s, p);
    assert one.mem.journal.pending == [p] && one.ahead == {p} && one.awaiting == {p};
    EffectStep(one, p, p.after.value);
    ReceiptStep(Step(one, Effect(p, p.after.value)), p, ReceiptFor(p));
    RetainOne(p);
  }

  /** Only recording an intent makes it pending. */
  lemma SamePending(s: State, event: Event)
    requires s.mem.journal.pending == s.disk.journal.pending
    ensures var t := Step(s, event); t.mem.journal.pending == t.disk.journal.pending && t.target == s.target
  {
  }

  lemma PendingGrows(s: State, event: Event, p: Intent)
    requires s.mem.journal.pending == s.disk.journal.pending && p in Step(s, event).mem.journal.pending
    ensures p in s.mem.journal.pending || (event == RecordIntent(p, true) && Enabled(s, event))
  {
    var j := s.mem.journal;
    if Enabled(s, event) {
      if event.Apply? {
        RetainMember(j.pending, event.findings.resolved, p);
      } else if event.RecordReceipt? || event.RecordOther? || event.RecordNoEffect? {
        RetainMember(j.pending, {event.intent.executionId}, p);
      }
    }
  }

  lemma OnlyEffectsWrite(s: State, event: Event)
    requires !(event.Effect? && Enabled(s, event))
    ensures Step(s, event).files == s.files
  {
  }

  // ---- Each event keeps the core of the invariant ----

  lemma FewerCalls(target: Target, calls: set<Intent>, fewer: set<Intent>)
    requires fewer <= calls
    ensures OneWriteEach(target, calls) ==> OneWriteEach(target, fewer)
    ensures IdsIdentify(calls) ==> IdsIdentify(fewer)
  {
  }

  function WithPending(b: Book, pending: seq<Intent>): Book {
    b.(journal := b.journal.(pending := pending))
  }

  lemma IntentKeepsBook(target: Target, b: Book, files: Files, used: set<string>, i: Intent)
    requires BookOk(target, b, files, used) && i.executionId !in used
    requires CompleteWrite(i) ==>
      && i.before.value == Current(files, FileOf(target, i))
      && forall p | p in b.journal.pending :: !Writes(target, p, FileOf(target, i))
    ensures BookOk(target, WithPending(b, b.journal.pending + [i]), files, used + {i.executionId})
  {
    var more := WithPending(b, b.journal.pending + [i]);
    forall file
      ensures Tracked(target, more, files, file)
    {
      assert Tracked(target, b, files, file);
      assert forall p :: p in more.journal.pending <==> p in b.journal.pending || p == i;
    }
  }

  lemma OneMoreCall(target: Target, calls: set<Intent>, used: set<string>, i: Intent)
    requires i.executionId !in used && forall p | p in calls :: p.executionId in used
    ensures IdsIdentify(calls) ==> IdsIdentify(calls + {i})
    ensures OneWriteEach(target, calls) && (CompleteWrite(i) ==> forall p | p in calls :: !Writes(target, p, FileOf(target, i)))
            ==> OneWriteEach(target, calls + {i})
  {
  }

  lemma SavedIntentKeeps(s: State, i: Intent)
    requires Core(s) && Enabled(s, RecordIntent(i, true)) && Careful(s, RecordIntent(i, true))
    ensures Core(Happen(s, RecordIntent(i, true)))
  {
    var t := Happen(s, RecordIntent(i, true));
    IntentStep(s, i);
    IntentKeepsBook(s.target, s.mem, s.files, s.used, i);
    IntentIsOneMore(s, i);
    OneMoreCall(s.target, Active(s), s.used, i);
    OneMoreCall(s.target, Calls(s), s.used, i);
    MoreCallsOk(s, t, i);
  }

  lemma IntentIsOneMore(s: State, i: Intent)
    requires Enabled(s, RecordIntent(i, true))
    ensures var t := Step(s, RecordIntent(i, true));
            && Active(t) == Active(s) + {i} && Calls(t) == Calls(s) + {i}
            && forall p :: p in t.mem.journal.pending <==> p in s.mem.journal.pending || p == i
  {
    IntentStep(s, i);
    var t := Step(s, RecordIntent(i, true));
    assert Pending(t) == Pending(s) + {i};
  }

  lemma MoreCallsOk(s: State, t: State, i: Intent)
    requires CallsOk(s) && i.executionId !in s.used && t.target == s.target && t.files == s.files && t.done == s.done
    requires t.used == s.used + {i.executionId} && Active(t) == Active(s) + {i} && t.awaiting == s.awaiting + {i}
    requires t.ahead == if CompleteWrite(i) then s.ahead + {i} else s.ahead
    requires CompleteWrite(i) ==> i.before.value == Current(s.files, FileOf(s.target, i))
    requires forall p :: p in t.mem.journal.pending <==> p in s.mem.journal.pending || p == i
    ensures CallsOk(t)
  {
  }

  lemma UsedKeeps(s: State, id: string)
    requires Core(s)
    ensures Core(s.(used := s.used + {id}))
  {
    assert Active(s.(used := s.used + {id})) == Active(s);
  }

  lemma IntentKeeps(s: State, i: Intent, saved: bool)
    requires Core(s) && Enabled(s, RecordIntent(i, saved)) && Careful(s, RecordIntent(i, saved))
    ensures Core(Happen(s, RecordIntent(i, saved)))
  {
    if saved {
      SavedIntentKeeps(s, i);
    } else {
      UsedKeeps(s, i.executionId);
    }
  }

  lemma EffectKeepsBook(target: Target, b: Book, files: Files, used: set<string>, i: Intent, calls: set<Intent>)
    requires BookOk(target, b, files, used) && OneWriteEach(target, calls) && forall p | p in b.journal.pending :: p in calls
    requires i in b.journal.pending && CompleteWrite(i)
    ensures BookOk(target, b, Put(files, FileOf(target, i), i.after.value), used)
  {
    var written := Put(files, FileOf(target, i), i.after.value);
    forall file
      ensures Tracked(target, b, written, file)
    {
      assert Tracked(target, b, files, file);
      PutCurrent(files, FileOf(target, i), i.after.value, file);
    }
  }

  /** In a careful run an effect leaves the digest it was to leave. */
  lemma EffectIsExpected(s: State, i: Intent, left: string)
    requires Core(s) && Enabled(s, Effect(i, left))
    ensures left == i.after.value
  {
  }

  lemma EffectKeepsCalls(s: State, i: Intent, left: string)
    requires Core(s) && Enabled(s, Effect(i, left)) && left == i.after.value
    ensures CallsOk(Happen(s, Effect(i, left)))
  {
    var t := Happen(s, Effect(i, left));
    assert Active(t) <= Active(s) && Calls(t) <= Calls(s);
    forall p | p in Active(t) && CompleteWrite(p)
      ensures Current(t.files, FileOf(t.target, p)) == if p == i then left else Current(s.files, FileOf(s.target, p))
    {
      PutCurrent(s.files, FileOf(s.target, i), left, FileOf(s.target, p));
      if FileOf(s.target, p) == FileOf(s.target, i) {
        assert p in Active(s) && i in Active(s);
      }
    }
  }

  lemma EffectKeeps(s: State, i: Intent, left: string)
    requires Core(s) && Enabled(s, Effect(i, left))
    ensures Core(Happen(s, Effect(i, left)))
  {
    EffectIsExpected(s, i, left);
    EffectKeepsBook(s.target, s.mem, s.files, s.used, i, Active(s));
    EffectKeepsBook(s.target, s.disk, s.files, s.used, i, Active(s));
    var t := Happen(s, Effect(i, left));
    FewerCalls(s.target, Active(s), Active(t));
    FewerCalls(s.target, Calls(s), Calls(t));
    EffectKeepsCalls(s, i, left);
  }

  lemma ReceiptKeepsTracks(target: Target, b: Book, files: Files, used: set<string>, i: Intent, receipt: Receipt,
                           calls: set<Intent>)
    requires BookOk(target, b, files, used) && OneWriteEach(target, calls) && forall p | p in b.journal.pending :: p in calls
    requires i in calls && CompleteWrite(i) && IdsIdentify(calls) && ReceiptOf(receipt, i, Current(files, FileOf(target, i)))
    ensures AllTracked(target, b.(journal := Resolved(b.journal, i, [receipt])), files)
  {
    var j := b.journal;
    var after := b.(journal := Resolved(j, i, [receipt]));
    RetainAllMembers(j.pending, i.executionId);
    forall file
      ensures Tracked(target, after, files, file)
    {
      assert Tracked(target, b, files, file);
      OneMoreOn(target, j.receipts, j.superseded, receipt, file);
      if file == FileOf(target, i) {
        assert forall p | p in after.journal.pending :: !Writes(target, p, file);
        assert i !in j.pending ==> forall p | p in j.pending :: !Writes(target, p, file);
      } else {
        assert Known(target, after, file) == Known(target, b, file);
        assert forall p | p in j.pending && Writes(target, p, file) :: p in after.journal.pending;
      }
    }
  }

  lemma OtherKeepsTracks(target: Target, b: Book, files: Files, used: set<string>, i: Intent, receipts: seq<Receipt>,
                         calls: set<Intent>)
    requires BookOk(target, b, files, used) && IdsIdentify(calls) && forall p | p in b.journal.pending :: p in calls
    requires i in calls && !CompleteWrite(i)
    requires receipts == [] || (|receipts| == 1 && !receipts[0].Mutation?)
    ensures AllTracked(target, b.(journal := Resolved(b.journal, i, receipts)), files)
  {
    var j := b.journal;
    var after := b.(journal := Resolved(j, i, receipts));
    RetainAllMembers(j.pending, i.executionId);
    forall file
      ensures Tracked(target, after, files, file)
    {
      assert Tracked(target, b, files, file);
      if receipts == [] {
        assert j.receipts + receipts == j.receipts;
      } else {
        assert receipts == [receipts[0]];
        OneMoreOn(target, j.receipts, j.superseded, receipts[0], file);
      }
    }
  }

  lemma ResolvedKeepsIds(j: Journal, used: set<string>, i: Intent, receipts: seq<Receipt>)
    requires IdsApart(j, used) && i.executionId in used
    requires forall r | r in receipts :: r.executionId == i.executionId
    ensures IdsApart(Resolved(j, i, receipts), used)
  {
    RetainAllMembers(j.pending, i.executionId);
  }

  /** The common part of the three ways to resolve an intent. */
  lemma ResolveKeeps(s: State, i: Intent, receipts: seq<Receipt>)
    requires Core(s) && i in s.awaiting && i !in s.ahead
    requires forall r | r in receipts :: r.executionId == i.executionId
    requires AllTracked(s.target, s.mem.(journal := Resolved(s.mem.journal, i, receipts)), s.files)
    ensures Core(Commit(s, Resolved(s.mem.journal, i, receipts), true).(awaiting := s.awaiting - {i}))
  {
    var j := s.mem.journal;
    ResolvedKeepsIds(j, s.used, i, receipts);
    RetainAllMembers(j.pending, i.executionId);
    var t := Commit(s, Resolved(j, i, receipts), true).(awaiting := s.awaiting - {i});
    FewerCalls(s.target, Active(s), Active(t));
    FewerCalls(s.target, Calls(s), Calls(t));
    forall p | p in t.ahead
      ensures p in t.mem.journal.pending
    {
      assert p in Calls(s) && i in Calls(s);
    }
  }

  /** A call that is no longer awaited, and nothing else. */
  lemma ForgetKeeps(s: State, i: Intent)
    requires Core(s)
    ensures Core(s.(awaiting := s.awaiting - {i})) && Core(s.(ahead := s.ahead - {i}))
  {
    var t, u := s.(awaiting := s.awaiting - {i}), s.(ahead := s.ahead - {i});
    FewerCalls(s.target, Active(s), Active(t));
    FewerCalls(s.target, Calls(s), Calls(t));
    FewerCalls(s.target, Active(s), Active(u));
    FewerCalls(s.target, Calls(s), Calls(u));
  }

  lemma ReceiptKeeps(s: State, i: Intent, receipt: Receipt, saved: bool)
    requires Core(s) && Enabled(s, RecordReceipt(i, receipt, saved))
    ensures Core(Happen(s, RecordReceipt(i, receipt, saved)))
  {
    if saved {
      FewerCalls(s.target, Calls(s), Active(s));
      ReceiptKeepsTracks(s.target, s.mem, s.files, s.used, i, receipt, Active(s));
      ResolveKeeps(s, i, [receipt]);
    } else {
      ForgetKeeps(s, i);
    }
  }

  lemma OtherKeeps(s: State, i: Intent, receipts: seq<Receipt>, saved: bool)
    requires Core(s) && i in s.awaiting && !CompleteWrite(i)
    requires receipts == [] || (|receipts| == 1 && !receipts[0].Mutation? && receipts[0].executionId == i.executionId)
    ensures Core(Commit(s, Resolved(s.mem.journal, i, receipts), saved).(awaiting := s.awaiting - {i}))
  {
    if saved {
      FewerCalls(s.target, Calls(s), Active(s));
      OtherKeepsTracks(s.target, s.mem, s.files, s.used, i, receipts, Active(s));
      ResolveKeeps(s, i, receipts);
    } else {
      ForgetKeeps(s, i);
    }
  }

  lemma SameListsTracked(target: Target, b: Book, c: Book, files: Files)
    requires AllTracked(target, b, files) && SameBooks(b.journal, c.journal)
    requires b.journal.superseded == c.journal.superseded && b.baseline == c.baseline
    ensures AllTracked(target, c, files)
  {
    forall file
      ensures Tracked(target, c, files, file)
    {
      assert Tracked(target, b, files, file);
    }
  }

  /** Books with the same lists, and no new calls. */
  lemma SameListsKeep(s: State, t: State)
    requires Core(s) && s.target == t.target && s.files == t.files && s.used == t.used
    requires SameBooks(s.mem.journal, t.mem.journal) && SameBooks(s.mem.journal, t.disk.journal)
    requires BookOk(s.target, t.mem, s.files, s.used) && BookOk(s.target, t.disk, s.files, s.used)
    requires t.awaiting <= s.awaiting && t.ahead <= s.ahead && (t.done == s.done || t.done == map[])
    ensures Core(t)
  {
    FewerCalls(s.target, Active(s), Active(t));
    FewerCalls(s.target, Calls(s), Calls(t));
  }

  lemma StatusKeeps(s: State, status: Status, pauseReason: Option<PauseReason>, blockReason: Option<BlockReason>, saved: bool)
    requires Core(s)
    ensures Core(Commit(s, s.mem.journal.(status := status, pauseReason := pauseReason, blockReason := blockReason), saved))
  {
    if saved {
      var j := s.mem.journal.(status := status, pauseReason := pauseReason, blockReason := blockReason);
      SameListsTracked(s.target, s.mem, s.mem.(journal := j), s.files);
      SameListsKeep(s, Commit(s, j, saved));
    }
  }

  lemma NoPendingKeepsBook(target: Target, b: Book, files: Files, used: set<string>, j: Journal)
    requires BookOk(target, b, files, used) && NoWritePending(b.journal)
    requires j.pending == [] && j.receipts == b.journal.receipts && j.superseded == b.journal.superseded
    ensures BookOk(target, b.(journal := j), files, used)
  {
    forall file
      ensures Tracked(target, b.(journal := j), files, file)
    {
      assert Tracked(target, b, files, file);
    }
  }

  lemma FinishKeeps(s: State, status: Status, saved: bool)
    requires Core(s) && Enabled(s, Finish(status, saved)) && Careful(s, Finish(status, saved))
    ensures Core(Happen(s, Finish(status, saved)))
  {
    if saved {
      var t := Happen(s, Finish(status, saved));
      NoPendingKeepsBook(s.target, s.mem, s.files, s.used, t.mem.journal);
      assert s.ahead == {};
      FewerCalls(s.target, Active(s), Active(t));
      FewerCalls(s.target, Calls(s), Calls(t));
    }
  }

  /** Against the files it is confirmed with, a superseded book is up to date. */
  lemma AcceptKeepsBook(target: Target, b: Book, files: Files, used: set<string>)
    requires BookOk(target, b, files, used)
    ensures BookOk(target, Confirmed(b, files), files, used)
  {
    var j := b.journal;
    var all := SupersedeAll(j.receipts, j.superseded);
    forall id
      ensures id in all <==> id in j.superseded || exists r :: r in j.receipts && r.Mutation? && r.executionId == id
    {
      SupersedesEachOnce(j.receipts, j.superseded, id);
    }
    forall file
      ensures Tracked(target, Confirmed(b, files), files, file)
    {
      assert Tracked(target, b, files, file);
      NoneOn(target, j.receipts, all, file);
    }
  }

  lemma {:induction false} NoneOn(target: Target, receipts: seq<Receipt>, superseded: seq<string>, file: string)
    requires forall r | r in receipts && r.Mutation? :: r.executionId in superseded
    ensures LastOn(target, receipts, superseded, file) == None
  {
    if receipts != [] {
      var front, last := receipts[..|receipts| - 1], receipts[|receipts| - 1];
      assert receipts == front + [last];
      NoneOn(target, front, superseded, file);
    }
  }

  lemma AcceptKeeps(s: State, accepted: bool)
    requires Core(s) && Enabled(s, AcceptWorkspace(accepted))
    ensures Core(Happen(s, AcceptWorkspace(accepted)))
  {
    AcceptKeepsBook(s.target, s.mem, s.files, s.used);
    var confirmed := Confirmed(s.mem, s.files);
    SameListsTracked(s.target, confirmed, Resumed(confirmed), s.files);
    SameListsKeep(s, Happen(s, AcceptWorkspace(accepted)));
  }

  lemma CrashKeeps(s: State)
    requires Core(s)
    ensures Core(Happen(s, Crash))
  {
    SameListsTracked(s.target, s.disk, Restarted(s.disk), s.files);
    SameListsKeep(s, Happen(s, Crash));
  }

  // ---- Reconciliation ----

  lemma {:induction false} LastAfterRecovery(target: Target, receipts: seq<Receipt>, superseded: seq<string>, files: Files,
                                             pending: seq<Intent>, file: string, calls: set<Intent>)
    requires OneWriteEach(target, calls) && forall p | p in pending :: p in calls && p.executionId !in superseded
    ensures var last := LastOn(target, receipts + RecoveredReceipts(Reading(target, files), pending), superseded, file);
            && (forall p | p in pending && Writes(target, p, file) && ClassOf(Reading(target, files), p) == Some(Recovered) ::
                  last == p.after)
            && ((forall p | p in pending && Writes(target, p, file) :: ClassOf(Reading(target, files), p) != Some(Recovered)) ==>
                  last == LastOn(target, receipts, superseded, file))
  {
    var read := Reading(target, files);
    if pending == [] {
      assert receipts + [] == receipts;
    } else {
      var front, last := pending[..|pending| - 1], pending[|pending| - 1];
      assert pending == front + [last];
      LastAfterRecovery(target, receipts, superseded, files, front, file, calls);
      if ClassOf(read, last) == Some(Recovered) {
        var sofar := receipts + RecoveredReceipts(read, front);
        assert receipts + RecoveredReceipts(read, pending) == sofar + [ReceiptFor(last)];
        OneMoreOn(target, sofar, superseded, ReceiptFor(last), file);
      } else {
        assert RecoveredReceipts(read, front) + [] == RecoveredReceipts(read, front);
      }
    }
  }

  /** A tracked write is never ambiguous. */
  lemma TrackedIsResolved(target: Target, b: Book, files: Files, p: Intent)
    requires AllTracked(target, b, files) && p in b.journal.pending && CompleteWrite(p)
    ensures ClassOf(Reading(target, files), p) == Some(Recovered) || ClassOf(Reading(target, files), p) == Some(Retry)
    ensures ClassOf(Reading(target, files), p) == Some(Recovered) <==> Current(files, FileOf(target, p)) == p.after.value
  {
    assert Tracked(target, b, files, FileOf(target, p));
  }

  lemma AllReadable(target: Target, files: Files, pending: seq<Intent>)
    ensures AllClassified(Reading(target, files), pending)
  {
  }

  /** The journal a reconciliation leaves when no id is used twice, apart from its status. */
  function Settled(target: Target, j: Journal, files: Files): Journal {
    j.(pending := Select(Reading(target, files), j.pending, Ambiguous),
       receipts := j.receipts + RecoveredReceipts(Reading(target, files), j.pending))
  }

  lemma NoWriteLeft(target: Target, b: Book, files: Files)
    requires AllTracked(target, b, files)
    ensures NoWritePending(Settled(target, b.journal, files))
  {
    forall p | p in Settled(target, b.journal, files).pending
      ensures !CompleteWrite(p)
    {
      SelectMembers(Reading(target, files), b.journal.pending, Ambiguous, p);
      if CompleteWrite(p) {
        TrackedIsResolved(target, b, files, p);
      }
    }
  }

  lemma RecoveryKnows(target: Target, b: Book, files: Files, used: set<string>, file: string, calls: set<Intent>)
    requires BookOk(target, b, files, used) && OneWriteEach(target, calls) && forall p | p in b.journal.pending :: p in calls
    ensures Known(target, b.(journal := Settled(target, b.journal, files)), file) == Current(files, file)
  {
    var j := b.journal;
    LastAfterRecovery(target, j.receipts, j.superseded, files, j.pending, file, calls);
    assert Tracked(target, b, files, file);
    if p :| p in j.pending && Writes(target, p, file) {
      TrackedIsResolved(target, b, files, p);
    }
  }

  /** Up to the status a reconciliation is the recovery. */
  lemma ReconciledIsRecovered(target: Target, j: Journal, files: Files, calls: set<Intent>)
    requires Recoverable(j) && IdsIdentify(calls) && forall p | p in j.pending :: p in calls
    ensures SameBooks(Reconciled(j, Reading(target, files)), Settled(target, j, files))
    ensures Reconciled(j, Reading(target, files)).superseded == j.superseded
  {
    AllReadable(target, files, j.pending);
    LeavesTheAmbiguous(Reading(target, files), j.pending);
    ReconciliationResolves(j, Reading(target, files));
  }

  lemma AnswersYes(s: State)
    requires Invariant(s) && Recoverable(s.mem.journal)
    ensures Clean(s.mem.journal, Reading(s.target, s.files))
       <==> forall p | p in s.mem.journal.pending :: p.risk == ReadOnly || CompleteWrite(p)
  {
    var j, read := s.mem.journal, Reading(s.target, s.files);
    forall p
      ensures p in Select(read, j.pending, Ambiguous) <==> p in j.pending && p.risk != ReadOnly && !CompleteWrite(p)
    {
      SelectMembers(read, j.pending, Ambiguous, p);
      if p in j.pending && CompleteWrite(p) {
        TrackedIsResolved(s.target, s.mem, s.files, p);
      }
    }
    if Select(read, j.pending, Ambiguous) != [] {
      assert Select(read, j.pending, Ambiguous)[0] in Select(read, j.pending, Ambiguous);
    }
  }

  // ---- Findings ----

  lemma RecoveredIsTrue(target: Target, files: Files, pending: seq<Intent>, r: Receipt) returns (p: Intent)
    requires r in RecoveredReceipts(Reading(target, files), pending)
    ensures p in pending && CompleteWrite(p) && r == ReceiptFor(p)
    ensures r.after == Current(files, target(r.resource))
  {
    RecoveredMembers(Reading(target, files), pending, r);
    p :| p in pending && ClassOf(Reading(target, files), p) == Some(Recovered) && r == ReceiptFor(p);
    ClassByFile(target, files, p);
  }

  /** At the time they are made findings may be stored. */
  lemma FreshIsTrue(target: Target, files: Files, j: Journal, superseded: seq<string>)
    requires FindingsOf(j, Reading(target, files)).Some?
    ensures StillTrue(target, files, FindingsOf(j, Reading(target, files)).value.recovered, superseded)
  {
    var f := FindingsOf(j, Reading(target, files)).value;
    forall r | r in f.recovered && Counts(r, superseded)
      ensures Current(files, target(r.resource)) == r.after
    {
      var _ := RecoveredIsTrue(target, files, j.pending, r);
    }
  }

  lemma FreshReceipts(s: State, f: Findings)
    requires Core(s) && FindingsOf(s.mem.journal, Reading(s.target, s.files)) == Some(f)
    ensures forall r | r in f.recovered :: r.Mutation? && r.executionId in f.resolved
  {
    var pending, read := s.mem.journal.pending, Reading(s.target, s.files);
    forall r | r in f.recovered
      ensures r.Mutation? && r.executionId in f.resolved
    {
      var p := RecoveredIsTrue(s.target, s.files, pending, r);
      assert r.executionId in ReceiptIds(RecoveryOf(read, pending).recovered);
    }
  }

  lemma FreshReceiptsDiffer(target: Target, files: Files, pending: seq<Intent>, calls: set<Intent>, a: Receipt, b: Receipt)
    requires OneWriteEach(target, calls) && forall p | p in pending :: p in calls
    requires a in RecoveredReceipts(Reading(target, files), pending) && b in RecoveredReceipts(Reading(target, files), pending)
    requires a.Mutation? && b.Mutation? && target(a.resource) == target(b.resource)
    ensures a == b
  {
    var p := RecoveredIsTrue(target, files, pending, a);
    var q := RecoveredIsTrue(target, files, pending, b);
  }

  lemma FreshExplains(s: State, f: Findings)
    requires Core(s) && FindingsOf(s.mem.journal, Reading(s.target, s.files)) == Some(f)
    ensures Explains(s, f)
  {
    var pending, read := s.mem.journal.pending, Reading(s.target, s.files);
    forall p | p in pending && p.executionId in f.resolved && CompleteWrite(p)
      ensures HasReceiptOf(s.target, f.recovered, p) || KnownNow(s, p)
    {
      var file := FileOf(s.target, p);
      assert Tracked(s.target, s.mem, s.files, file) && Tracked(s.target, s.disk, s.files, file);
      if Current(s.files, file) == p.after.value {
        DoneIsRecovered(s.target, s.files, pending, p);
        assert ReceiptFor(p) in f.recovered;
      }
    }
  }

  lemma FreshIsOk(s: State, f: Findings)
    requires Core(s) && s.ahead == {} && FindingsOf(s.mem.journal, Reading(s.target, s.files)) == Some(f)
    ensures FoundOk(s, f)
  {
    FreshReceipts(s, f);
    FreshExplains(s, f);
    forall a, b | a in f.recovered && b in f.recovered && a.Mutation? && b.Mutation? && s.target(a.resource) == s.target(b.resource)
      ensures a == b
    {
      FreshReceiptsDiffer(s.target, s.files, s.mem.journal.pending, Active(s), a, b);
    }
    forall id | id in f.resolved
      ensures id in s.used
    {
      ResolvedExactly(Reading(s.target, s.files), s.mem.journal.pending, id);
    }
  }

  /** Findings stay in order if new calls have new ids and known files stay known. */
  lemma FoundStays(s: State, t: State, f: Findings)
    requires FoundOk(s, f) && t.target == s.target && s.used <= t.used
    requires forall p | p in t.ahead :: p in s.ahead || p.executionId !in s.used
    requires forall p | p in t.mem.journal.pending && p.executionId in s.used :: p in s.mem.journal.pending
    requires forall p | p in t.mem.journal.pending && p.executionId in f.resolved && CompleteWrite(p) && KnownNow(s, p) :: KnownNow(t, p)
    ensures FoundOk(t, f)
  {
  }

  lemma IntentKeepsFound(s: State, i: Intent, saved: bool, f: Findings)
    requires Core(s) && FoundOk(s, f) && Enabled(s, RecordIntent(i, saved))
    ensures FoundOk(Happen(s, RecordIntent(i, saved)), f)
  {
    var t := Happen(s, RecordIntent(i, saved));
    assert forall p | p in t.mem.journal.pending :: p in s.mem.journal.pending || p == i;
    forall p | p in t.mem.journal.pending && p.executionId in f.resolved && CompleteWrite(p) && KnownNow(s, p)
      ensures KnownNow(t, p)
    {
      KnownAfterCommit(s, t, FileOf(s.target, p));
    }
    FoundStays(s, t, f);
  }

  /** Saved or not, a change that keeps receipts and superseded ids keeps what is known of a known file. */
  lemma KnownAfterCommit(s: State, t: State, file: string)
    requires t.target == s.target && t.files == s.files && t.mem.baseline == s.mem.baseline
    requires t.mem.journal.receipts == s.mem.journal.receipts && t.mem.journal.superseded == s.mem.journal.superseded
    requires t.disk == s.disk || t.disk == t.mem
    ensures Known(s.target, s.mem, file) == Known(s.target, s.disk, file) == Current(s.files, file)
        ==> Known(t.target, t.mem, file) == Known(t.target, t.disk, file) == Current(t.files, file)
  {
  }

  lemma EffectKeepsFound(s: State, i: Intent, left: string, f: Findings)
    requires Core(s) && FoundOk(s, f) && Enabled(s, Effect(i, left))
    ensures FoundOk(Happen(s, Effect(i, left)), f)
  {
    var t := Happen(s, Effect(i, left));
    forall p | p in t.mem.journal.pending && p.executionId in f.resolved && CompleteWrite(p) && KnownNow(s, p)
      ensures KnownNow(t, p)
    {
      PutCurrent(s.files, FileOf(s.target, i), left, FileOf(s.target, p));
      assert p in Active(s) && i in Active(s) && p != i;
    }
    FoundStays(s, t, f);
  }

  /** Receipts of another file, or of none. */
  lemma OtherReceiptsKnown(target: Target, b: Book, i: Intent, receipts: seq<Receipt>, file: string)
    requires receipts == [] || (|receipts| == 1 && (receipts[0].Mutation? ==> target(receipts[0].resource) != file))
    ensures Known(target, b.(journal := Resolved(b.journal, i, receipts)), file) == Known(target, b, file)
  {
    if receipts == [] {
      assert b.journal.receipts + receipts == b.journal.receipts;
    } else {
      assert receipts == [receipts[0]];
      OneMoreOn(target, b.journal.receipts, b.journal.superseded, receipts[0], file);
    }
  }

  /** A receipt of one call leaves the files of the other pending writes as known. */
  lemma ResolvedKnown(s: State, i: Intent, receipts: seq<Receipt>, p: Intent)
    requires Core(s) && i in s.awaiting && p in s.mem.journal.pending && p.executionId != i.executionId
    requires receipts == [] || (|receipts| == 1 && (receipts[0].Mutation? ==> CompleteWrite(i) && receipts[0].resource == i.resource.value))
    requires CompleteWrite(p) && KnownNow(s, p)
    ensures KnownNow(Commit(s, Resolved(s.mem.journal, i, receipts), true), p)
  {
    assert p in Active(s) && i in Active(s) && p != i;
    OtherReceiptsKnown(s.target, s.mem, i, receipts, FileOf(s.target, p));
  }

  lemma ResolveKeepsFound(s: State, i: Intent, receipts: seq<Receipt>, saved: bool, f: Findings)
    requires Core(s) && FoundOk(s, f) && i in s.awaiting
    requires receipts == [] || (|receipts| == 1 && (receipts[0].Mutation? ==> CompleteWrite(i) && receipts[0].resource == i.resource.value))
    ensures FoundOk(Commit(s, Resolved(s.mem.journal, i, receipts), saved).(awaiting := s.awaiting - {i}), f)
  {
    var t := Commit(s, Resolved(s.mem.journal, i, receipts), saved).(awaiting := s.awaiting - {i});
    RetainAllMembers(s.mem.journal.pending, i.executionId);
    forall p | p in t.mem.journal.pending && p.executionId in f.resolved && CompleteWrite(p) && KnownNow(s, p)
      ensures KnownNow(t, p)
    {
      if saved {
        ResolvedKnown(s, i, receipts, p);
      }
    }
    FoundStays(s, t, f);
  }

  lemma CommitKeepsFound(s: State, j: Journal, saved: bool, f: Findings)
    requires Core(s) && FoundOk(s, f)
    requires j.receipts == s.mem.journal.receipts && j.superseded == s.mem.journal.superseded
    requires forall p | p in j.pending :: p in s.mem.journal.pending
    ensures FoundOk(Commit(s, j, saved), f)
  {
    var t := Commit(s, j, saved);
    forall p | p in t.mem.journal.pending && p.executionId in f.resolved && CompleteWrite(p) && KnownNow(s, p)
      ensures KnownNow(t, p)
    {
      KnownAfterCommit(s, t, FileOf(s.target, p));
    }
    FoundStays(s, t, f);
  }

  lemma ConfirmedKnows(target: Target, b: Book, files: Files, file: string)
    ensures Known(target, Confirmed(b, files), file) == Current(files, file)
  {
    var j := b.journal;
    var all := SupersedeAll(j.receipts, j.superseded);
    forall r | r in j.receipts && r.Mutation?
      ensures r.executionId in all
    {
      SupersedesEachOnce(j.receipts, j.superseded, r.executionId);
    }
    NoneOn(target, j.receipts, all, file);
  }

  lemma AcceptKeepsFound(s: State, accepted: bool, f: Findings)
    requires Core(s) && FoundOk(s, f) && Enabled(s, AcceptWorkspace(accepted))
    ensures FoundOk(Happen(s, AcceptWorkspace(accepted)), f)
  {
    var t := Happen(s, AcceptWorkspace(accepted));
    forall p | p in t.mem.journal.pending && p.executionId in f.resolved && CompleteWrite(p) && KnownNow(s, p)
      ensures KnownNow(t, p)
    {
      ConfirmedKnows(s.target, s.mem, s.files, FileOf(s.target, p));
    }
    FoundStays(s, t, f);
  }

  // ---- Storing findings ----

  /** After more receipts that are true of its file, a file is known as before, or as it is. */
  lemma {:induction false} LastAfterTrue(target: Target, files: Files, receipts: seq<Receipt>, more: seq<Receipt>,
                                         superseded: seq<string>, file: string)
    requires StillTrue(target, files, more, superseded)
    ensures var last := LastOn(target, receipts + more, superseded, file);
            if exists r :: r in more && Counts(r, superseded) && target(r.resource) == file
            then last == Some(Current(files, file)) else last == LastOn(target, receipts, superseded, file)
  {
    if more == [] {
      assert receipts + more == receipts;
    } else {
      var front, last := more[..|more| - 1], more[|more| - 1];
      assert more == front + [last] && receipts + more == receipts + front + [last];
      LastAfterTrue(target, files, receipts, front, superseded, file);
      OneMoreOn(target, receipts + front, superseded, last, file);
    }
  }

  /** The findings resolve no write that they do not explain. */
  ghost predicate ExplainedIn(target: Target, b: Book, files: Files, f: Findings) {
    forall p | p in b.journal.pending && p.executionId in f.resolved && CompleteWrite(p) ::
      HasReceiptOf(target, f.recovered, p) || Known(target, b, FileOf(target, p)) == Current(files, FileOf(target, p))
  }

  lemma AppliedPending(j: Journal, f: Findings)
    ensures forall p :: p in Applied(j, f).pending <==> p in j.pending && p.executionId !in f.resolved
  {
    forall p
      ensures p in Applied(j, f).pending <==> p in j.pending && p.executionId !in f.resolved
    {
      RetainMember(j.pending, f.resolved, p);
    }
  }

  /** Some receipt of the file among these counts. */
  ghost predicate CountsOn(target: Target, receipts: seq<Receipt>, superseded: seq<string>, file: string) {
    exists r :: r in receipts && Counts(r, superseded) && target(r.resource) == file
  }

  /** A file without such a receipt is known if the findings leave no write of it pending. */
  lemma KnownWithoutReceipt(target: Target, b: Book, files: Files, used: set<string>, f: Findings, file: string)
    requires BookOk(target, b, files, used) && ExplainedIn(target, b, files, f)
    requires !CountsOn(target, f.recovered, b.journal.superseded, file)
    requires forall p | p in b.journal.pending && p.executionId !in f.resolved :: !Writes(target, p, file)
    ensures Known(target, b, file) == Current(files, file)
  {
    assert Tracked(target, b, files, file);
    if p :| p in b.journal.pending && Writes(target, p, file) {
      assert !HasReceiptOf(target, f.recovered, p);
    }
  }

  lemma ApplyKeepsTracked(target: Target, b: Book, files: Files, used: set<string>, f: Findings, file: string)
    requires BookOk(target, b, files, used) && ExplainedIn(target, b, files, f)
    requires StillTrue(target, files, f.recovered, b.journal.superseded)
    ensures Tracked(target, b.(journal := Applied(b.journal, f)), files, file)
  {
    var j := b.journal;
    assert Tracked(target, b, files, file);
    LastAfterTrue(target, files, j.receipts, f.recovered, j.superseded, file);
    AppliedPending(j, f);
    if !CountsOn(target, f.recovered, j.superseded, file) {
      if forall p | p in j.pending && p.executionId !in f.resolved :: !Writes(target, p, file) {
        KnownWithoutReceipt(target, b, files, used, f, file);
      }
    }
  }

  lemma ApplyKeepsIds(j: Journal, used: set<string>, f: Findings)
    requires IdsApart(j, used) && (forall id | id in f.resolved :: id in used)
    requires forall r | r in f.recovered :: r.executionId in f.resolved
    ensures IdsApart(Applied(j, f), used)
  {
    AppliedPending(j, f);
  }

  lemma ApplyKeepsBook(target: Target, b: Book, files: Files, used: set<string>, f: Findings)
    requires BookOk(target, b, files, used) && ExplainedIn(target, b, files, f)
    requires StillTrue(target, files, f.recovered, b.journal.superseded)
    requires (forall id | id in f.resolved :: id in used) && forall r | r in f.recovered :: r.executionId in f.resolved
    ensures BookOk(target, b.(journal := Applied(b.journal, f)), files, used)
  {
    ApplyKeepsIds(b.journal, used, f);
    forall file
      ensures Tracked(target, b.(journal := Applied(b.journal, f)), files, file)
    {
      ApplyKeepsTracked(target, b, files, used, f, file);
    }
  }

  lemma ApplyKeeps(s: State, f: Findings, saved: bool)
    requires Core(s) && FoundOk(s, f) && StillTrue(s.target, s.files, f.recovered, s.mem.journal.superseded)
    ensures Core(Commit(s, Applied(s.mem.journal, f), saved))
  {
    if saved {
      var t := Commit(s, Applied(s.mem.journal, f), saved);
      assert ExplainedIn(s.target, s.mem, s.files, f);
      ApplyKeepsBook(s.target, s.mem, s.files, s.used, f);
      AppliedPending(s.mem.journal, f);
      FewerCalls(s.target, Active(s), Active(t));
      FewerCalls(s.target, Calls(s), Calls(t));
    }
  }

  lemma ApplyKeepsFound(s: State, g: Findings, saved: bool, f: Findings)
    requires Core(s) && FoundOk(s, f) && StillTrue(s.target, s.files, g.recovered, s.mem.journal.superseded)
    ensures FoundOk(Commit(s, Applied(s.mem.journal, g), saved), f)
  {
    var t := Commit(s, Applied(s.mem.journal, g), saved);
    forall p | p in t.mem.journal.pending
      ensures p in s.mem.journal.pending
    {
      RetainMember(s.mem.journal.pending, g.resolved, p);
    }
    forall p | p in t.mem.journal.pending && p.executionId in f.resolved && CompleteWrite(p) && KnownNow(s, p)
      ensures KnownNow(t, p)
    {
      LastAfterTrue(s.target, s.files, s.mem.journal.receipts, g.recovered, s.mem.journal.superseded, FileOf(s.target, p));
    }
    FoundStays(s, t, f);
  }

  // ---- Each event keeps the invariant ----

  lemma StepKeepsCore(s: State, event: Event)
    requires Invariant(s) && Enabled(s, event) && Careful(s, event)
    ensures Core(Happen(s, event))
  {
    match event
    case RecordIntent(i, saved) => IntentKeeps(s, i, saved);
    case Effect(i, left) => EffectKeeps(s, i, left);
    case RecordReceipt(i, receipt, saved) => ReceiptKeeps(s, i, receipt, saved);
    case RecordOther(i, receipt, saved) => OtherKeeps(s, i, [receipt], saved);
    case RecordNoEffect(i, saved) => OtherKeeps(s, i, [], saved);
    case GiveUp(i) => ForgetKeeps(s, i);
    case Settle(i) => ForgetKeeps(s, i);
    case ChangeStatus(status, pauseReason, blockReason, saved) => StatusKeeps(s, status, pauseReason, blockReason, saved);
    case Finish(status, saved) => FinishKeeps(s, status, saved);
    case AcceptWorkspace(accepted) => AcceptKeeps(s, accepted);
    case Crash => CrashKeeps(s);
    case Classify => SameListsKeep(s, Happen(s, Classify));
    case Apply(f, saved) => ApplyKeeps(s, f, saved);
  }

  lemma StepKeepsFound(s: State, event: Event, f: Findings)
    requires Invariant(s) && Enabled(s, event) && Careful(s, event) && f in s.found && event != Crash
    ensures FoundOk(Happen(s, event), f)
  {
    match event
    case RecordIntent(i, saved) => IntentKeepsFound(s, i, saved, f);
    case Effect(i, left) => EffectKeepsFound(s, i, left, f);
    case RecordReceipt(i, receipt, saved) => ResolveKeepsFound(s, i, [receipt], saved, f);
    case RecordOther(i, receipt, saved) => ResolveKeepsFound(s, i, [receipt], saved, f);
    case RecordNoEffect(i, saved) => ResolveKeepsFound(s, i, [], saved, f);
    case GiveUp(i) => FoundStays(s, Happen(s, event), f);
    case Settle(i) => FoundStays(s, Happen(s, event), f);
    case ChangeStatus(status, pauseReason, blockReason, saved) =>
      CommitKeepsFound(s, s.mem.journal.(status := status, pauseReason := pauseReason, blockReason := blockReason), saved, f);
    case Finish(status, saved) =>
      CommitKeepsFound(s, s.mem.journal.(status := status, pauseReason := None, blockReason := None, pending := []), saved, f);
    case AcceptWorkspace(accepted) => AcceptKeepsFound(s, accepted, f);
    case Classify => FoundStays(s, Happen(s, event), f);
    case Apply(g, saved) => ApplyKeepsFound(s, g, saved, f);
  }

  lemma AllFoundStay(s: State, event: Event)
    requires Invariant(s) && Enabled(s, event) && Careful(s, event) && event != Crash
    ensures forall f | f in Happen(s, event).found :: FoundOk(Happen(s, event), f)
  {
    var t := Happen(s, event);
    forall f | f in t.found
      ensures FoundOk(t, f)
    {
      if f in s.found {
        StepKeepsFound(s, event, f);
      } else {
        FreshIsOk(s, f);
        FoundStays(s, t, f);
      }
    }
  }

  lemma StepKeeps(s: State, event: Event)
    requires Invariant(s) && (Enabled(s, event) ==> Careful(s, event))
    ensures Invariant(Step(s, event)) && Step(s, event).target == s.target
  {
    if Enabled(s, event) {
      StepKeepsCore(s, event);
      if event != Crash {
        AllFoundStay(s, event);
      }
    }
  }

  // ---- After a reconciliation ----

  lemma ClassByFile(target: Target, files: Files, p: Intent)
    requires CompleteWrite(p)
    ensures var current := Current(files, FileOf(target, p));
            ClassOf(Reading(target, files), p) == Some(if current == p.after.value then Recovered
                                                       else if current == p.before.value then Retry else Ambiguous)
  {
  }

  /** A goal that is classified, and whose findings are stored at once. */
  ghost function Reconciling(s: State, f: Findings): State {
    Step(Step(s, Classify), Apply(f, true))
  }

  lemma ReconcilingStores(s: State, f: Findings)
    requires FindingsOf(s.mem.journal, Reading(s.target, s.files)) == Some(f)
    ensures Reconciling(s, f) == Commit(s, Reconciled(s.mem.journal, Reading(s.target, s.files)), true).(found := s.found + {f})
    ensures Enabled(s, Classify) && Enabled(Step(s, Classify), Apply(f, true)) && Careful(Step(s, Classify), Apply(f, true))
    ensures Recoverable(s.mem.journal)
  {
    FreshIsTrue(s.target, s.files, s.mem.journal, s.mem.journal.superseded);
  }

  lemma RecoveryLeavesNoWrite(s: State, f: Findings)
    requires Core(s) && FindingsOf(s.mem.journal, Reading(s.target, s.files)) == Some(f)
    ensures NoWritePending(Reconciling(s, f).mem.journal)
  {
    ReconcilingStores(s, f);
    ReconciledHasNoWrite(s.target, s.mem, s.files, Calls(s));
  }

  lemma ReconciledHasNoWrite(target: Target, b: Book, files: Files, calls: set<Intent>)
    requires AllTracked(target, b, files) && Recoverable(b.journal)
    requires IdsIdentify(calls) && forall p | p in b.journal.pending :: p in calls
    ensures NoWritePending(Reconciled(b.journal, Reading(target, files)))
  {
    ReconciledIsRecovered(target, b.journal, files, calls);
    NoWriteLeft(target, b, files);
  }

  lemma ReconciledKnows(target: Target, b: Book, files: Files, used: set<string>, calls: set<Intent>, file: string)
    requires BookOk(target, b, files, used) && OneWriteEach(target, calls) && IdsIdentify(calls) && Recoverable(b.journal)
    requires forall p | p in b.journal.pending :: p in calls
    ensures Known(target, b.(journal := Reconciled(b.journal, Reading(target, files))), file) == Current(files, file)
  {
    ReconciledIsRecovered(target, b.journal, files, calls);
    RecoveryKnows(target, b, files, used, file, calls);
  }

  /** The file is not as either book says. */
  ghost predicate Unexplained(s: State, file: string) {
    && Known(s.target, s.mem, file) != Current(s.files, file)
    && Known(s.target, s.disk, file) != Current(s.files, file)
  }

  lemma EffectAfterRecovery(s: State, f: Findings, p: Intent)
    requires Core(s) && FindingsOf(s.mem.journal, Reading(s.target, s.files)) == Some(f) && p in s.ahead
    ensures var t := Step(Reconciling(s, f), Effect(p, p.after.value));
            && CompleteWrite(p) && p !in t.mem.journal.pending && t.target == s.target
            && (!Unexplained(t, FileOf(s.target, p)) <==> ClassOf(Reading(s.target, s.files), p) == Some(Recovered))
            && (!Unexplained(t, FileOf(s.target, p)) <==> p.before == p.after)
  {
    ReconcilingStores(s, f);
    var once := Reconciling(s, f);
    ReconciledHasNoWrite(s.target, s.mem, s.files, Calls(s));
    FewerCalls(s.target, Calls(s), Active(s));
    ReconciledKnows(s.target, s.mem, s.files, s.used, Active(s), FileOf(s.target, p));
    ClassByFile(s.target, s.files, p);
    EffectStep(once, p, p.after.value);
    PutCurrent(s.files, FileOf(s.target, p), p.after.value, FileOf(s.target, p));
  }

  lemma ReceiptAfterRecovery(s: State, f: Findings, p: Intent, receipt: Receipt)
    requires Core(s) && FindingsOf(s.mem.journal, Reading(s.target, s.files)) == Some(f)
    requires p in s.awaiting && p in s.done && CompleteWrite(p) && p in s.mem.journal.pending && ReceiptOf(receipt, p, s.done[p])
    ensures var t := Step(Reconciling(s, f), RecordReceipt(p, receipt, true));
            && ReceiptFor(p) in f.recovered
            && t.mem.journal.receipts == s.mem.journal.receipts + f.recovered + [receipt]
            && NoWritePending(t.mem.journal)
  {
    ReconcilingStores(s, f);
    var once := Reconciling(s, f);
    DoneIsRecovered(s.target, s.files, s.mem.journal.pending, p);
    RecoveryLeavesNoWrite(s, f);
    ReconciledRuns(s.mem.journal, Reading(s.target, s.files));
    ReceiptStep(once, p, receipt);
    RetainAllMembers(once.mem.journal.pending, p.executionId);
  }

  lemma DoneIsRecovered(target: Target, files: Files, pending: seq<Intent>, p: Intent)
    requires p in pending && CompleteWrite(p) && p.after.value == Current(files, FileOf(target, p))
    ensures ReceiptFor(p) in RecoveredReceipts(Reading(target, files), pending)
  {
    ClassByFile(target, files, p);
    RecoveredMembers(Reading(target, files), pending, ReceiptFor(p));
  }

  lemma ReconciledRuns(j: Journal, files: string -> FileState)
    requires Recoverable(j)
    ensures !Terminal(Reconciled(j, files).status)
  {
  }

  // ---- Stale findings ----

  /** Some receipt of the file among these counts, and is not true of it. */
  ghost predicate FalseOn(target: Target, files: Files, receipts: seq<Receipt>, superseded: seq<string>, file: string) {
    exists r :: r in receipts && Counts(r, superseded) && target(r.resource) == file && r.after != Current(files, file)
  }

  /**
   Findings that were made on careful terms, stored at any later time: a file that no pending
   write is left for is the known one after it exactly if they have no receipt of it that counts
   and is no longer true.
   */
  lemma StaleExactly(s: State, f: Findings, file: string)
    requires Invariant(s) && f in s.found
    requires forall p | p in Applied(s.mem.journal, f).pending :: !Writes(s.target, p, file)
    ensures var t := Step(s, Apply(f, true));
            Known(s.target, t.mem, file) == Current(t.files, file)
            <==> !FalseOn(s.target, s.files, f.recovered, s.mem.journal.superseded, file)
  {
    assert ExplainedIn(s.target, s.mem, s.files, f);
    StaleBook(s.target, s.mem, s.files, s.used, f, file);
  }

  lemma StaleBook(target: Target, b: Book, files: Files, used: set<string>, f: Findings, file: string)
    requires BookOk(target, b, files, used) && ExplainedIn(target, b, files, f)
    requires forall x, y | x in f.recovered && y in f.recovered && x.Mutation? && y.Mutation?
                       && target(x.resource) == target(y.resource) :: x == y
    requires forall p | p in Applied(b.journal, f).pending :: !Writes(target, p, file)
    ensures Known(target, b.(journal := Applied(b.journal, f)), file) == Current(files, file)
       <==> !FalseOn(target, files, f.recovered, b.journal.superseded, file)
  {
    var j := b.journal;
    LastAfterOne(target, j.receipts, f.recovered, j.superseded, file);
    if !CountsOn(target, f.recovered, j.superseded, file) {
      AppliedPending(j, f);
      KnownWithoutReceipt(target, b, files, used, f, file);
    }
  }

  function ReceiptsOn(target: Target, receipts: seq<Receipt>, file: string): seq<Receipt> {
    if receipts == [] then []
    else
      var front, last := receipts[..|receipts| - 1], receipts[|receipts| - 1];
      ReceiptsOn(target, front, file) + (if last.Mutation? && target(last.resource) == file then [last] else [])
  }

  /** With at most one receipt of a file among them, more receipts leave the file with it, or as it was. */
  lemma {:induction false} LastAfterOne(target: Target, receipts: seq<Receipt>, more: seq<Receipt>, superseded: seq<string>,
                                        file: string)
    requires forall a, b | a in more && b in more && a.Mutation? && b.Mutation?
                       && target(a.resource) == target(b.resource) :: a == b
    ensures var last := LastOn(target, receipts + more, superseded, file);
            && (forall r | r in more && Counts(r, superseded) && target(r.resource) == file :: last == Some(r.after))
            && ((forall r | r in more && Counts(r, superseded) :: target(r.resource) != file) ==>
                  last == LastOn(target, receipts, superseded, file))
  {
    if more == [] {
      assert receipts + more == receipts;
    } else {
      var front, last := more[..|more| - 1], more[|more| - 1];
      assert more == front + [last] && receipts + more == receipts + front + [last];
      LastAfterOne(target, receipts, front, superseded, file);
      OneMoreOn(target, receipts + front, superseded, last, file);
    }
  }

  // ---- Files that nothing explains ----

  /** The event may change the file, or what a book says of it. */
  ghost predicate Touches(s: State, event: Event, file: string) {
    Enabled(s, event) &&
    match event
    case Effect(i, _) => FileOf(s.target, i) == file
    case RecordReceipt(i, _, saved) => saved && FileOf(s.target, i) == file
    case AcceptWorkspace(_) => true
    case Apply(f, saved) => saved && ReceiptsOn(s.target, f.recovered, file) != []
    case _ => false
  }

  lemma {:induction false} NoneOfFile(target: Target, receipts: seq<Receipt>, more: seq<Receipt>, superseded: seq<string>,
                                      file: string)
    requires ReceiptsOn(target, more, file) == []
    ensures LastOn(target, receipts + more, superseded, file) == LastOn(target, receipts, superseded, file)
  {
    if more == [] {
      assert receipts + more == receipts;
    } else {
      var front, last := more[..|more| - 1], more[|more| - 1];
      assert receipts + more == receipts + front + [last];
      NoneOfFile(target, receipts, front, superseded, file);
      OneMoreOn(target, receipts + front, superseded, last, file);
    }
  }

  lemma UntouchedStays(s: State, event: Event, file: string)
    requires Unexplained(s, file) && !Touches(s, event, file)
    ensures Unexplained(Step(s, event), file)
  {
    if Enabled(s, event) {
      var j := s.mem.journal;
      match event
      case RecordReceipt(i, receipt, saved) =>
        if saved {
          OtherReceiptsKnown(s.target, s.mem, i, [receipt], file);
        }
      case RecordOther(i, receipt, saved) => OtherReceiptsKnown(s.target, s.mem, i, [receipt], file);
      case RecordNoEffect(i, saved) => OtherReceiptsKnown(s.target, s.mem, i, [], file);
      case Effect(i, left) => PutCurrent(s.files, FileOf(s.target, i), left, file);
      case Apply(f, saved) =>
        if saved {
          NoneOfFile(s.target, j.receipts, f.recovered, j.superseded, file);
        }
      case _ =>
    }
  }

  // ---- Single runs of a write ----

  lemma CancelledAtStart(s: State, p: Intent)
    requires CompleteWrite(p) && p.before.value == ABSENT && s == Start(s.target, map[])
    ensures Careful(s, RecordIntent(p, true))
    ensures var t := Step(Step(s, RecordIntent(p, true)), ChangeStatus(Blocked, None, Some(AmbiguousToolEffect), true));
            && t.ahead == {p} && t.target == s.target && t.files == map[]
            && t.mem.journal == Journal(Blocked, None, Some(AmbiguousToolEffect), [p], [], [], [])
            && t.awaiting == {p} && t.done == map[] && t.used == {p.executionId} && t.found == {} && t.disk == t.mem
  {
    assert Active(s) == {};
    IntentStep(s, p);
    assert [] + [p] == [p];
  }

  /** Giving a call up changes nothing but that it is awaited. */
  lemma GivenUpStays(s: State, p: Intent, left: string)
    requires Enabled(s, Effect(p, left))
    ensures Step(Step(s, GiveUp(p)), Effect(p, left)) == Step(s, Effect(p, left)).(awaiting := s.awaiting - {p})
  {
  }

  /** The findings on a single recovered write. */
  lemma FindsOneWrite(target: Target, files: Files, p: Intent)
    requires CompleteWrite(p) && Current(files, FileOf(target, p)) == p.after.value
    ensures var f := FindingsOf(Journal(Blocked, None, Some(AmbiguousToolEffect), [p], [], [], []), Reading(target, files));
            && f.Some? && f.value.recovered == [ReceiptFor(p)] && p.executionId in f.value.resolved
            && !f.value.ambiguous && !f.value.retry && f.value.unblocks
  {
    var read := Reading(target, files);
    ClassByFile(target, files, p);
    assert [p][..0] == [];
    assert RecoveredReceipts(read, [p]) == [ReceiptFor(p)];
    NotSelected(read, p, Ambiguous);
    NotSelected(read, p, Retry);
    assert p in [p];
    ResolvedExactly(read, [p], p.executionId);
    assert ResolvedIn(read, [p], p.executionId);
  }

  lemma NotSelected(read: string -> FileState, p: Intent, wanted: Class)
    requires ClassOf(read, p) != Some(wanted)
    ensures Select(read, [p], wanted) == []
  {
    assert [p][..0] == [];
    assert Select(read, [], wanted) == [];
  }

  /** A settled goal gets a receipt that names another digest than its file has. */
  lemma OldReceiptConflicts(s: State, f: Findings, p: Intent, resource: string)
    requires CompleteWrite(p) && p.resource.value == resource && p.after.value != Current(s.files, s.target(resource))
    requires Idle(s) && f in s.found && f.recovered == [ReceiptFor(p)] && s.mem.journal.superseded == []
    ensures var t := Step(s, Apply(f, true));
            && t.mem.journal.pending == []
            && !ReceiptsMatch(t.mem.journal.receipts, t.mem.journal.superseded, Reading(s.target, t.files))
  {
    var j := s.mem.journal;
    assert Retain([], f.resolved) == [];
    var t := Step(s, Apply(f, true));
    assert t.mem.journal.receipts == j.receipts + [ReceiptFor(p)] && t.files == s.files;
    OneMoreReceipt(j.receipts, [], ReceiptFor(p), resource);
    ReadDigest(s.target, s.files, resource);
  }

  lemma ReadDigest(target: Target, files: Files, resource: string)
    ensures Digest(Reading(target, files)(resource)) == Some(Current(files, target(resource)))
  {
  }

  lemma FindsTheSame(s: State, f: Findings)
    requires FindingsOf(s.mem.journal, Reading(s.target, s.files)) == Some(f)
    ensures Step(s, Classify) == s.(found := s.found + {f}) && Step(Step(s, Classify), Classify) == s.(found := s.found + {f})
  {
    assert s.found + {f} + {f} == s.found + {f};
  }

  lemma AppliedOnce(s: State, f: Findings, p: Intent)
    requires CompleteWrite(p) && s.mem.journal == Journal(Blocked, None, Some(AmbiguousToolEffect), [p], [], [], [])
    requires f in s.found && f.recovered == [ReceiptFor(p)] && p.executionId in f.resolved && !f.ambiguous && !f.retry && f.unblocks
    requires Current(s.files, FileOf(s.target, p)) == p.after.value && s.awaiting == s.ahead == {}
    ensures Careful(s, Apply(f, true))
    ensures var t := Step(Step(s, Apply(f, true)), ChangeStatus(Queued, None, None, true));
            && Idle(t) && t.target == s.target && t.found == s.found && t.used == s.used && t.files == s.files
            && t.mem.journal.receipts == [ReceiptFor(p)] && t.mem.journal.superseded == []
  {
    assert [p][..0] == [];
    assert Retain([p], f.resolved) == [];
    assert [] + [ReceiptFor(p)] == [ReceiptFor(p)];
  }
}
