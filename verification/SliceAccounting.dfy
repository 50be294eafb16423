/**
 What a goal uses: an account for each of its models, the counters of the slice that is open,
 and the boundaries that close a slice. Token counts are 64-bit and checked, calls and rounds
 32-bit.
 */
module SliceAccounting {
  import opened Options

  const U64_MAX: nat := 0xffff_ffff_ffff_ffff
  const U32_MAX: nat := 0xffff_ffff
  const SLICE_MAX_ACTIVE_MS: nat := 120_000
  const SLICE_MAX_INPUT_TOKENS: nat := 250_000
  const SLICE_MAX_OUTPUT_TOKENS: nat := 16_000
  const SLICE_MAX_TOOL_RESULT_BYTES: nat := 2 * 1024 * 1024
  const STEP_MAX_ROUNDS: nat := 512
  const STEP_MAX_TOOL_CALLS: nat := 1024

  datatype Usage = Usage(input: nat, cached: nat, output: nat, calls: nat)

  function Nothing(): Usage {
    Usage(0, 0, 0, 0)
  }

  datatype Boundary = AtomicStep | Time | InputTokens | OutputTokens | ToolResultBytes | Budget | NoProgressRecovery |
    NoProgressBlocked | RunawayGuard

  function AtMost(n: nat, max: nat): nat {
    if n <= max then n else max
  }

  // ---- Adding usage ----

  /** The sum of two usages without any bound; cached input of the second counts only up to its input. */
  function Sum(a: Usage, b: Usage): Usage {
    Usage(a.input + b.input, a.cached + AtMost(b.cached, b.input), a.output + b.output, a.calls + b.calls)
  }

  predicate Fits(u: Usage) {
    u.input <= U64_MAX && u.cached <= U64_MAX && u.output <= U64_MAX && u.calls <= U32_MAX
  }

  function CheckedSum(a: Usage, b: Usage): Option<Usage> {
    if Fits(Sum(a, b)) then Some(Sum(a, b)) else None
  }

  /** An addition in place that overflows leaves the fields before the overflowing one added. */
  function AddedInPlace(a: Usage, b: Usage): Usage {
    var s := Sum(a, b);
    if s.input > U64_MAX then a
    else if s.cached > U64_MAX then a.(input := s.input)
    else if s.output > U64_MAX then a.(input := s.input, cached := s.cached)
    else if s.calls > U32_MAX then a.(input := s.input, cached := s.cached, output := s.output)
    else s
  }

  // ---- A step of the engine ----

  /**
   A step of the engine: the figures the provider reported with each response, whatever they
   are, and the tool calls the engine counted. `early` and `late` are the elapsed times before
   and after a compaction.
   */
  datatype Outcome = Outcome(figures: seq<Usage>, toolCalls: nat, bytes: nat, boundary: Boundary, early: nat, late: nat,
                             compaction: Option<Usage>)

  /** The engine adds up the figures, and gives up when a total is over its limit. */
  function Folded(figures: seq<Usage>): Option<Usage> {
    if figures == [] then Some(Nothing())
    else
      var sofar := Folded(figures[..|figures| - 1]);
      if sofar.None? then None
      else
        var total := CheckedSum(sofar.value, figures[|figures| - 1]);
        if total.None? || total.value.input > SLICE_MAX_INPUT_TOKENS || total.value.output > SLICE_MAX_OUTPUT_TOKENS then None
        else total
  }

  /** The usage a step reports, if the engine gets that far. */
  function StepUsage(step: Outcome): Option<Usage> {
    var total := Folded(step.figures);
    if total.None? || |step.figures| > STEP_MAX_ROUNDS || step.toolCalls > STEP_MAX_TOOL_CALLS then None
    else Some(total.value.(calls := step.toolCalls))
  }

  lemma {:induction false} FoldedCapsCached(figures: seq<Usage>)
    requires Folded(figures).Some?
    ensures Folded(figures).value.cached <= Folded(figures).value.input
  {
    if figures != [] {
      FoldedCapsCached(figures[..|figures| - 1]);
    }
  }

  // ---- Boundaries ----

  function LogicalBoundary(engine: Boundary, usage: Usage, activeMs: nat, bytes: nat): Boundary {
    if engine != AtomicStep then engine
    else if activeMs >= SLICE_MAX_ACTIVE_MS then Time
    else if usage.input >= SLICE_MAX_INPUT_TOKENS then InputTokens
    else if usage.output >= SLICE_MAX_OUTPUT_TOKENS then OutputTokens
    else if bytes >= SLICE_MAX_TOOL_RESULT_BYTES then ToolResultBytes
    else AtomicStep
  }

  /** What one model has used and cost. */
  datatype Billed = Billed(usage: Usage, spent: nat)

  /** The counters of the open slice, and those of the goal. */
  datatype Slice = Slice(open: Usage, openMs: nat, openBytes: nat, index: nat, sequence: nat, responses: nat)

  datatype Books = Books(accounts: map<string, Billed>, model: string, slice: Slice)

  /** The price of usage, or nothing on overflow. */
  type Price = Usage -> Option<nat>

  type Prices = string -> Price

  /** What is worked out before the commit. */
  datatype Plan = Plan(bill: Usage, total: Usage, activeMs: nat, bytes: nat, boundary: Boundary)

  function CheckedAdd(a: nat, b: nat): Option<nat> {
    if a + b <= U64_MAX then Some(a + b) else None
  }

  predicate Compacts(preliminary: Boundary) {
    preliminary != AtomicStep && preliminary != Budget
  }

  /** The account of the model can take the step's usage, as the budget of a compaction is projected from it. */
  predicate Projectable(g: Books, usage: Usage, prices: Prices) {
    && g.model in g.accounts
    && CheckedSum(g.accounts[g.model].usage, usage).Some?
    && prices(g.model)(Sum(g.accounts[g.model].usage, usage)).Some?
  }

  function PlanFor(g: Books, step: Outcome, prices: Prices): Option<Plan> {
    var usage := StepUsage(step);
    if usage.None? || !Projectable(g, usage.value, prices) then None
    else PlanWith(g.slice, step, usage.value)
  }

  function PlanWith(s: Slice, step: Outcome, usage: Usage): Option<Plan> {
    var total := CheckedSum(s.open, usage);
    var bytes := CheckedAdd(s.openBytes, step.bytes);
    var before := CheckedAdd(s.openMs, step.early);
    if total.None? || bytes.None? || before.None? then None
    else
      var preliminary := LogicalBoundary(step.boundary, total.value, before.value, bytes.value);
      var attempt := if Compacts(preliminary) then step.compaction else None;
      var bill := if attempt.Some? then CheckedSum(usage, attempt.value) else Some(usage);
      var all := if attempt.Some? then CheckedSum(total.value, attempt.value) else total;
      var active := CheckedAdd(s.openMs, step.late);
      if bill.None? || all.None? || active.None? then None
      else Some(Plan(bill.value, all.value, active.value, bytes.value,
                     LogicalBoundary(preliminary, all.value, active.value, bytes.value)))
  }

  /** Charging an account in place; a failure leaves what was added before it. */
  function Charged(b: Billed, usage: Usage, price: Price): (Billed, bool) {
    var total := AddedInPlace(b.usage, usage);
    if CheckedSum(b.usage, usage).None? || price(total).None? then (b.(usage := total), false)
    else (Billed(total, price(total).value), true)
  }

  /** Charging the account of the current model. */
  function ChargedBooks(g: Books, usage: Usage, prices: Prices): (Books, bool) {
    if g.model !in g.accounts then (g, false)
    else
      var (account, ok) := Charged(g.accounts[g.model], usage, prices(g.model));
      (g.(accounts := g.accounts[g.model := account]), ok)
  }

  /** The counters of a slice that starts. */
  function Restarted(s: Slice): Slice {
    s.(open := Nothing(), openMs := 0, openBytes := 0)
  }

  /** The counters after the commit of a plan; a failure leaves the sequence counted. */
  function Counted(s: Slice, plan: Plan, rounds: nat): (Slice, bool) {
    var counted := s.(sequence := AtMost(s.sequence + 1, U64_MAX));
    if s.responses + rounds > U32_MAX then (counted, false)
    else
      var answered := counted.(responses := s.responses + rounds);
      if plan.boundary == AtomicStep then
        (answered.(open := plan.total, openMs := plan.activeMs, openBytes := plan.bytes), true)
      else
        (Restarted(answered.(index := AtMost(s.index + 1, U32_MAX))), true)
  }

  /** The commit of a plan in place. */
  function Committed(g: Books, plan: Plan, rounds: nat, prices: Prices): (Books, bool) {
    var (charged, ok) := ChargedBooks(g, plan.bill, prices);
    if !ok then (charged, false)
    else
      var (slice, counted) := Counted(g.slice, plan, rounds);
      (charged.(slice := slice), counted)
  }

  // ---- The accounts in place ----

  class BudgetAccount {
    var input: nat
    var cached: nat
    var output: nat
    var calls: nat
    var spent: nat

    function Value(): Billed
      reads this
    {
      Billed(Usage(input, cached, output, calls), spent)
    }

    constructor (b: Billed)
      ensures Value() == b
    {
      input, cached, output, calls, spent := b.usage.input, b.usage.cached, b.usage.output, b.usage.calls, b.spent;
    }

    method AddUsage(usage: Usage) returns (ok: bool)
      modifies this`input, this`cached, this`output, this`calls
      ensures Value().usage == AddedInPlace(old(Value().usage), usage)
      ensures ok <==> CheckedSum(old(Value().usage), usage).Some?
      ensures ok ==> input == old(input) + usage.input && output == old(output) + usage.output && calls == old(calls) + usage.calls
      ensures ok ==> cached == old(cached) + (if usage.cached <= usage.input then usage.cached else usage.input)
      ensures !ok ==>
        && calls == old(calls)
        && (input == old(input) <==> old(input) + usage.input > U64_MAX || usage.input == 0)
        && (input != old(input) ==> input == old(input) + usage.input)
      ensures ok ==> input <= U64_MAX && cached <= U64_MAX && output <= U64_MAX && calls <= U32_MAX
    {
      if input + usage.input > U64_MAX {
        return false;
      }
      input := input + usage.input;
      if cached + AtMost(usage.cached, usage.input) > U64_MAX {
        return false;
      }
      cached := cached + AtMost(usage.cached, usage.input);
      if output + usage.output > U64_MAX {
        return false;
      }
      output := output + usage.output;
      if calls + usage.calls > U32_MAX {
        return false;
      }
      calls := calls + usage.calls;
      ok := true;
    }

    method RecordUsage(usage: Usage, price: Price) returns (ok: bool)
      modifies this
      ensures (Value(), ok) == Charged(old(Value()), usage, price)
      ensures ok ==> price(Usage(input, cached, output, calls)) == Some(spent)
      ensures !ok ==> spent == old(spent) && Value().usage == AddedInPlace(old(Value().usage), usage)
    {
      ok := AddUsage(usage);
      if !ok {
        return;
      }
      var cost := price(Usage(input, cached, output, calls));
      if cost.None? {
        return false;
      }
      spent := cost.value;
    }
  }

  class GoalBooks {
    var usageByModel: map<string, Billed>
    var model: string
    var open: Usage
    var openMs: nat
    var openBytes: nat
    var sliceIndex: nat
    var sequence: nat
    var responses: nat

    function Value(): Books
      reads this
    {
      Books(usageByModel, model, Slice(open, openMs, openBytes, sliceIndex, sequence, responses))
    }

    constructor (g: Books)
      ensures Value() == g
    {
      usageByModel, model := g.accounts, g.model;
      open, openMs, openBytes := g.slice.open, g.slice.openMs, g.slice.openBytes;
      sliceIndex, sequence, responses := g.slice.index, g.slice.sequence, g.slice.responses;
    }

    method ChargeActive(usage: Usage, prices: Prices) returns (ok: bool)
      modifies this`usageByModel
      ensures (Value(), ok) == ChargedBooks(old(Value()), usage, prices)
      ensures model in old(usageByModel) ==> usageByModel.Keys == old(usageByModel).Keys
      ensures forall other | other in usageByModel && other != model ::
        other in old(usageByModel) && usageByModel[other] == old(usageByModel)[other]
      ensures ok ==> model in usageByModel && prices(model)(usageByModel[model].usage) == Some(usageByModel[model].spent)
    {
      if model !in usageByModel {
        return false;
      }
      var active := new BudgetAccount(usageByModel[model]);
      ok := active.RecordUsage(usage, prices(model));
      usageByModel := usageByModel[model := active.Value()];
    }

    method ResetSliceCounters()
      modifies this`open, this`openMs, this`openBytes
      ensures open == Nothing() && openMs == 0 && openBytes == 0
    {
      open, openMs, openBytes := Nothing(), 0, 0;
    }

    method CommitCheckpoint(plan: Plan, rounds: nat, prices: Prices) returns (ok: bool)
      modifies this
      ensures (Value(), ok) == Committed(old(Value()), plan, rounds, prices)
      ensures model == old(model) && (ok ==> responses == old(responses) + rounds <= U32_MAX)
      ensures ok ==> sequence == if old(sequence) < U64_MAX then old(sequence) + 1 else U64_MAX
      ensures ok && plan.boundary == AtomicStep ==>
        open == plan.total && openMs == plan.activeMs && openBytes == plan.bytes && sliceIndex == old(sliceIndex)
      ensures ok && plan.boundary != AtomicStep ==>
        && open.input == open.cached == open.output == open.calls == openMs == openBytes == 0
        && sliceIndex == if old(sliceIndex) < U32_MAX then old(sliceIndex) + 1 else U32_MAX
      ensures !ok ==> open == old(open) && openMs == old(openMs) && openBytes == old(openBytes)
                      && sliceIndex == old(sliceIndex) && responses == old(responses)
    {
      ok := ChargeActive(plan.bill, prices);
      if !ok {
        return;
      }
      sequence := AtMost(sequence + 1, U64_MAX);
      if responses + rounds > U32_MAX {
        return false;
      }
      responses := responses + rounds;
      if plan.boundary == AtomicStep {
        open, openMs, openBytes := plan.total, plan.activeMs, plan.bytes;
      } else {
        sliceIndex := AtMost(sliceIndex + 1, U32_MAX);
        ResetSliceCounters();
      }
    }
  }

  // ---- One commit ----

  predicate BelowLimits(s: Slice) {
    && s.openMs < SLICE_MAX_ACTIVE_MS
    && s.open.input < SLICE_MAX_INPUT_TOKENS
    && s.open.output < SLICE_MAX_OUTPUT_TOKENS
    && s.openBytes < SLICE_MAX_TOOL_RESULT_BYTES
  }

  /** What a commit stores stays below every limit, whatever was read for its plan. */
  lemma CommitKeepsLimits(g: Books, step: Outcome, prices: Prices, now: Books)
    requires BelowLimits(now.slice) && PlanFor(g, step, prices).Some?
    ensures BelowLimits(Committed(now, PlanFor(g, step, prices).value, |step.figures|, prices).0.slice)
  {
  }

  /** A step stays inside its slice exactly when the engine asks for no boundary and no limit is reached. */
  lemma AtomicExactlyBelowLimits(g: Books, step: Outcome, prices: Prices)
    requires PlanFor(g, step, prices).Some? && step.early <= step.late
    ensures var plan := PlanFor(g, step, prices).value;
            plan.boundary == AtomicStep
            <==> && step.boundary == AtomicStep
                 && plan.activeMs < SLICE_MAX_ACTIVE_MS && plan.bytes < SLICE_MAX_TOOL_RESULT_BYTES
                 && plan.total.input < SLICE_MAX_INPUT_TOKENS && plan.total.output < SLICE_MAX_OUTPUT_TOKENS
  {
  }

  function Plus(a: Usage, b: Usage): Usage {
    Usage(a.input + b.input, a.cached + b.cached, a.output + b.output, a.calls + b.calls)
  }

  /**
   Whatever the provider reports, what an account is charged for a step is what the step adds
   to its slice, cached input included.
   */
  lemma BillIsSliceGrowth(g: Books, step: Outcome, prices: Prices, billed: Usage)
    requires PlanFor(g, step, prices).Some?
    ensures var plan := PlanFor(g, step, prices).value;
            Plus(Sum(billed, plan.bill), g.slice.open) == Plus(billed, plan.total)
  {
    FoldedCapsCached(step.figures);
  }

  // ---- All accounts together ----

  ghost function TotalOf(models: set<string>, accounts: map<string, Billed>): Usage
    requires models <= accounts.Keys
  {
    if models == {} then Nothing()
    else
      var model :| model in models;
      Plus(accounts[model].usage, TotalOf(models - {model}, accounts))
  }

  ghost function Total(accounts: map<string, Billed>): Usage {
    TotalOf(accounts.Keys, accounts)
  }

  lemma {:induction false} TotalSplits(models: set<string>, accounts: map<string, Billed>, model: string)
    requires models <= accounts.Keys && model in models
    ensures TotalOf(models, accounts) == Plus(accounts[model].usage, TotalOf(models - {model}, accounts))
  {
    var first :| first in models && TotalOf(models, accounts) == Plus(accounts[first].usage, TotalOf(models - {first}, accounts));
    if first != model {
      var rest, others := models - {first}, models - {model};
      assert TotalOf(rest, accounts) == Plus(accounts[model].usage, TotalOf(rest - {model}, accounts)) by {
        TotalSplits(rest, accounts, model);
      }
      assert TotalOf(others, accounts) == Plus(accounts[first].usage, TotalOf(others - {first}, accounts)) by {
        TotalSplits(others, accounts, first);
      }
      assert rest - {model} == others - {first};
      assert TotalOf(rest - {model}, accounts) == TotalOf(others - {first}, accounts);
      assert TotalOf(models, accounts) == Plus(accounts[first].usage, TotalOf(rest, accounts));
      assert TotalOf(models, accounts) == Plus(accounts[first].usage, Plus(accounts[model].usage, TotalOf(rest - {model}, accounts)));
      assert TotalOf(models, accounts) == Plus(accounts[model].usage, TotalOf(others, accounts));
    } else {
      assert models - {first} == models - {model};
    }
  }

  lemma {:induction false} TotalOfSame(models: set<string>, a: map<string, Billed>, b: map<string, Billed>)
    requires models <= a.Keys && models <= b.Keys && forall model | model in models :: a[model] == b[model]
    ensures TotalOf(models, a) == TotalOf(models, b)
  {
    if models != {} {
      var model :| model in models;
      TotalOfSame(models - {model}, a, b);
      TotalSplits(models, a, model);
      TotalSplits(models, b, model);
    }
  }

  lemma TotalUpdated(accounts: map<string, Billed>, model: string, account: Billed)
    requires model in accounts
    ensures Plus(Total(accounts[model := account]), accounts[model].usage) == Plus(Total(accounts), account.usage)
  {
    var more := accounts[model := account];
    assert more.Keys == accounts.Keys;
    TotalSplits(accounts.Keys, accounts, model);
    TotalSplits(accounts.Keys, more, model);
    TotalOfSame(accounts.Keys - {model}, accounts, more);
  }

  lemma TotalExtended(accounts: map<string, Billed>, model: string, account: Billed)
    requires model !in accounts && Plus(account.usage, Total(accounts)) == Total(accounts)
    ensures Total(accounts[model := account]) == Total(accounts)
  {
    var more := accounts[model := account];
    TotalSplits(more.Keys, more, model);
    assert more.Keys - {model} == accounts.Keys;
    TotalOfSame(accounts.Keys, accounts, more);
  }

  lemma TotalOfOne(accounts: map<string, Billed>, model: string)
    requires accounts.Keys == {model}
    ensures Total(accounts) == accounts[model].usage
  {
    TotalSplits(accounts.Keys, accounts, model);
    assert accounts.Keys - {model} == {};
  }

  // ---- Runs ----

  /**
   The runner reads the goal, takes a step of it, and leaves it, by stopping or with its process.
   A charge outside of any slice is for a completion candidate or a verification. A resume may
   switch the model, and a goal that is finished is cleared. A save that fails undoes its change.
   */
  datatype Event =
    | Look
    | Step(step: Outcome, saved: bool)
    | Leave
    | Charge(usage: Usage, saved: bool)
    | SwitchModel(model: string, kept: bool)
    | Clear(saved: bool)

  /**
   `seen` is the goal as the runner read it for its next step. `closed` are the totals of the
   slices closed so far, `direct` the charges outside of slices, `dropped` what was cleared for
   good and `held` what was cleared but is in the goal that the runner has read. `overflowed`
   tells whether a change was given up halfway because a counter overflowed.
   */
  datatype Ledger = Ledger(books: Books, seen: Option<Books>, closed: Usage, direct: Usage, held: Usage, dropped: Usage,
                           boundaries: nat, overflowed: bool)

  /** The runner forgets what it has read. */
  function Unread(l: Ledger): Ledger {
    l.(seen := None, held := Nothing(), dropped := Plus(l.dropped, l.held))
  }

  /** The plan is made on the goal as it was read, and committed to the goal as it is. */
  function Stepped(l: Ledger, step: Outcome, saved: bool, prices: Prices): Ledger {
    if l.seen.None? then l
    else
      var plan := PlanFor(l.seen.value, step, prices);
      if plan.None? then Unread(l)
      else
        var (books, ok) := Committed(l.books, plan.value, |step.figures|, prices);
        if !ok then l.(books := books, overflowed := true)
        else if !saved then Unread(l)
        else
          var stored := l.(books := books, seen := None, held := Nothing());
          if plan.value.boundary == AtomicStep then stored
          else stored.(closed := Plus(l.closed, plan.value.total), boundaries := l.boundaries + 1)
  }

  function Direct(l: Ledger, usage: Usage, saved: bool, prices: Prices): Ledger {
    var (books, ok) := ChargedBooks(l.books, usage, prices);
    if !ok then l.(books := books, overflowed := true)
    else if !saved then l
    else l.(books := books, direct := Sum(l.direct, usage))
  }

  /** The first use of a model opens its account. */
  function Switched(g: Books, model: string): Books {
    g.(accounts := if model in g.accounts then g.accounts else g.accounts[model := Billed(Nothing(), 0)], model := model)
  }

  /** Finishing a goal restarts its slice, but keeps its accounts and its slice index. */
  function ClearedLedger(l: Ledger): Ledger {
    var cleared := l.(books := l.books.(slice := Restarted(l.books.slice)));
    if l.seen.Some? then cleared.(held := Plus(l.held, l.books.slice.open))
    else cleared.(dropped := Plus(l.dropped, l.books.slice.open))
  }

  function Next(l: Ledger, event: Event, prices: Prices): Ledger {
    match event
    case Look => Unread(l).(seen := Some(l.books))
    case Step(step, saved) => Stepped(l, step, saved, prices)
    case Leave => Unread(l)
    case Charge(usage, saved) => Direct(l, usage, saved, prices)
    case SwitchModel(model, kept) => if kept then l.(books := Switched(l.books, model)) else l
    case Clear(saved) => if saved then ClearedLedger(l) else l
  }

  function NewLedger(model: string): Ledger {
    var slice := Slice(Nothing(), 0, 0, 0, 0, 0);
    Ledger(Books(map[model := Billed(Nothing(), 0)], model, slice), None, Nothing(), Nothing(), Nothing(), Nothing(), 0, false)
  }

  function Run(model: string, events: seq<Event>, prices: Prices): Ledger {
    if events == [] then NewLedger(model)
    else Next(Run(model, events[..|events| - 1], prices), events[|events| - 1], prices)
  }

  lemma OneMoreEvent(model: string, events: seq<Event>, event: Event, prices: Prices)
    ensures Run(model, events + [event], prices) == Next(Run(model, events, prices), event, prices)
  {
    assert (events + [event])[..|events|] == events;
  }

  /**
   Everything billed to any model belongs to a closed slice, to the open one, to a direct charge,
   or to a slice that was cleared.
   */
  ghost predicate Conserved(l: Ledger) {
    Total(l.books.accounts) == Plus(Plus(Plus(l.closed, l.books.slice.open), l.direct), Plus(l.dropped, l.held))
  }

  /** The same without anything cleared. */
  ghost predicate PlainlyConserved(l: Ledger) {
    Total(l.books.accounts) == Plus(Plus(l.closed, l.books.slice.open), l.direct)
  }

  /** The slice index counts the boundaries, up to its width. */
  predicate IndexCounts(l: Ledger) {
    l.books.slice.index == AtMost(l.boundaries, U32_MAX)
  }

  /** What the runner has read of the open slice is still there or is held. */
  predicate HeldIsSeen(l: Ledger) {
    if l.seen.Some? then Plus(l.held, l.books.slice.open) == l.seen.value.slice.open
                         && (l.held == Nothing() || l.books.slice.open == Nothing())
    else l.held == Nothing()
  }

  ghost predicate InOrder(l: Ledger) {
    && Conserved(l) && BelowLimits(l.books.slice) && IndexCounts(l) && HeldIsSeen(l)
    && l.books.model in l.books.accounts
  }

  lemma ChargedIsSum(g: Books, usage: Usage, prices: Prices)
    requires ChargedBooks(g, usage, prices).1
    ensures var after := ChargedBooks(g, usage, prices).0;
            && after.slice == g.slice && after.model == g.model && g.model in after.accounts
            && Total(after.accounts) == Sum(Total(g.accounts), usage)
  {
    TotalUpdated(g.accounts, g.model, Charged(g.accounts[g.model], usage, prices(g.model)).0);
  }

  lemma LeaveKeepsOrder(l: Ledger)
    requires InOrder(l)
    ensures InOrder(Unread(l))
  {
  }

  /** What a step bills and adds to what was read of its slice keeps the balance. */
  lemma GrowthBalances(total: Usage, after: Usage, closed: Usage, open: Usage, direct: Usage, dropped: Usage, held: Usage,
                       slice: Usage)
    requires total == Plus(Plus(Plus(closed, open), direct), Plus(dropped, held))
    requires Plus(after, Plus(held, open)) == Plus(total, slice)
    ensures after == Plus(Plus(Plus(closed, slice), direct), Plus(dropped, Nothing()))
    ensures after == Plus(Plus(Plus(Plus(closed, slice), Nothing()), direct), Plus(dropped, Nothing()))
  {
  }

  lemma CommitConserves(l: Ledger, step: Outcome, prices: Prices)
    requires Conserved(l) && HeldIsSeen(l) && l.seen.Some? && PlanFor(l.seen.value, step, prices).Some?
    requires Committed(l.books, PlanFor(l.seen.value, step, prices).value, |step.figures|, prices).1
    ensures Conserved(Stepped(l, step, true, prices))
  {
    var plan := PlanFor(l.seen.value, step, prices).value;
    var total, open := Total(l.books.accounts), l.books.slice.open;
    BillIsSliceGrowth(l.seen.value, step, prices, total);
    ChargedIsSum(l.books, plan.bill, prices);
    GrowthBalances(total, Sum(total, plan.bill), l.closed, open, l.direct, l.dropped, l.held, plan.total);
  }

  lemma CommitKeepsOrder(l: Ledger, step: Outcome, prices: Prices)
    requires InOrder(l) && l.seen.Some? && PlanFor(l.seen.value, step, prices).Some?
    requires Committed(l.books, PlanFor(l.seen.value, step, prices).value, |step.figures|, prices).1
    ensures InOrder(Stepped(l, step, true, prices))
  {
    CommitConserves(l, step, prices);
    CommitKeepsLimits(l.seen.value, step, prices, l.books);
  }

  lemma StepKeepsOrder(l: Ledger, step: Outcome, saved: bool, prices: Prices)
    requires InOrder(l) && !Stepped(l, step, saved, prices).overflowed
    ensures InOrder(Stepped(l, step, saved, prices))
  {
    LeaveKeepsOrder(l);
    if l.seen.Some? && saved && PlanFor(l.seen.value, step, prices).Some? {
      CommitKeepsOrder(l, step, prices);
    }
  }

  lemma ChargeKeepsOrder(l: Ledger, usage: Usage, saved: bool, prices: Prices)
    requires InOrder(l) && !Direct(l, usage, saved, prices).overflowed
    ensures InOrder(Direct(l, usage, saved, prices))
  {
    if saved {
      ChargedIsSum(l.books, usage, prices);
    }
  }

  lemma NothingAdds(u: Usage)
    ensures Plus(Nothing(), u) == u
  {
  }

  lemma SwitchKeepsOrder(l: Ledger, model: string)
    requires InOrder(l)
    ensures InOrder(l.(books := Switched(l.books, model)))
  {
    if model !in l.books.accounts {
      NothingAdds(Total(l.books.accounts));
      TotalExtended(l.books.accounts, model, Billed(Nothing(), 0));
    }
  }

  lemma ClearKeepsOrder(l: Ledger)
    requires InOrder(l)
    ensures InOrder(ClearedLedger(l))
  {
  }

  lemma NewLedgerInOrder(model: string)
    ensures InOrder(NewLedger(model))
  {
    TotalOfOne(NewLedger(model).books.accounts, model);
  }

  lemma EventKeepsOrder(l: Ledger, event: Event, prices: Prices)
    requires InOrder(l) && !Next(l, event, prices).overflowed
    ensures InOrder(Next(l, event, prices))
  {
    match event
    case Look => LeaveKeepsOrder(l);
    case Step(step, saved) => StepKeepsOrder(l, step, saved, prices);
    case Leave => LeaveKeepsOrder(l);
    case Charge(usage, saved) => ChargeKeepsOrder(l, usage, saved, prices);
    case SwitchModel(other, kept) => SwitchKeepsOrder(l, other);
    case Clear(saved) => ClearKeepsOrder(l);
  }

  /**
   After every run, with any figures of the provider, any model switches, clearings, failed plans
   and failed saves, as long as no counter of the goal overflowed: what is billed to all models is
   the closed slices, the open slice, the direct charges and the cleared slices together,
   compactions and cached input included; the stored counters are below their limits; the slice
   index counts the boundaries (up to its width).
   */
  lemma {:induction false} UsageIsConserved(model: string, events: seq<Event>, prices: Prices)
    requires !Run(model, events, prices).overflowed
    ensures InOrder(Run(model, events, prices))
  {
    if events == [] {
      NewLedgerInOrder(model);
    } else {
      UsageIsConserved(model, events[..|events| - 1], prices);
      EventKeepsOrder(Run(model, events[..|events| - 1], prices), events[|events| - 1], prices);
    }
  }

  // ---- When nothing is lost ----

  /** In this state the event loses usage for good. */
  predicate Loses(l: Ledger, event: Event, prices: Prices) {
    match event
    case Clear(saved) => saved && l.seen.None? && l.books.slice.open != Nothing()
    case Look => l.held != Nothing()
    case Leave => l.held != Nothing()
    case Step(step, saved) =>
      l.held != Nothing() && l.seen.Some? && (PlanFor(l.seen.value, step, prices).None? || !saved)
    case _ => false
  }

  predicate LosesAt(model: string, events: seq<Event>, k: nat, prices: Prices) {
    k < |events| && Loses(Run(model, events[..k], prices), events[k], prices)
  }

  ghost predicate NeverLoses(model: string, events: seq<Event>, prices: Prices) {
    forall k: nat :: !LosesAt(model, events, k, prices)
  }

  /** Sums of counts are nothing exactly if both are. */
  lemma PlusIsNothing(a: Usage, b: Usage)
    ensures Plus(a, b) == Nothing() <==> a == Nothing() && b == Nothing()
  {
  }

  lemma DroppedByLoss(l: Ledger, event: Event, prices: Prices)
    requires !Next(l, event, prices).overflowed
    ensures Next(l, event, prices).dropped == Nothing() <==> l.dropped == Nothing() && !Loses(l, event, prices)
  {
    PlusIsNothing(l.dropped, l.held);
    PlusIsNothing(l.dropped, l.books.slice.open);
  }

  lemma NeverLosesFront(model: string, events: seq<Event>, prices: Prices)
    requires events != []
    ensures var front := events[..|events| - 1];
            NeverLoses(model, events, prices)
            <==> NeverLoses(model, front, prices) && !Loses(Run(model, front, prices), events[|events| - 1], prices)
  {
    var front := events[..|events| - 1];
    forall k: nat | k < |front|
      ensures LosesAt(model, front, k, prices) == LosesAt(model, events, k, prices)
    {
      assert front[..k] == events[..k];
    }
    assert LosesAt(model, events, |front|, prices) == Loses(Run(model, front, prices), events[|front|], prices);
    forall k: nat
      ensures !LosesAt(model, front, k, prices) || k < |front|
    {
    }
  }

  lemma OverflowStays(l: Ledger, event: Event, prices: Prices)
    requires l.overflowed
    ensures Next(l, event, prices).overflowed
  {
  }

  lemma {:induction false} DroppedExactly(model: string, events: seq<Event>, prices: Prices)
    requires !Run(model, events, prices).overflowed
    ensures Run(model, events, prices).dropped == Nothing() <==> NeverLoses(model, events, prices)
  {
    if events != [] {
      var front, last := events[..|events| - 1], events[|events| - 1];
      var l := Run(model, front, prices);
      if l.overflowed {
        OverflowStays(l, last, prices);
      }
      DroppedExactly(model, front, prices);
      DroppedByLoss(l, last, prices);
      NeverLosesFront(model, events, prices);
    }
  }

  /**
   Nothing is missing from what was billed exactly if no event lost anything and the open slice
   is the one the runner has read, if it has read one. An event loses usage if it clears a slice
   that is not empty while no runner has read it, or if the runner that had read a slice cleared
   since does not commit its step.
   */
  lemma PlainExactly(model: string, events: seq<Event>, prices: Prices)
    requires !Run(model, events, prices).overflowed
    ensures var l := Run(model, events, prices);
            PlainlyConserved(l)
            <==> && NeverLoses(model, events, prices)
                 && (l.seen.Some? ==> l.books.slice.open == l.seen.value.slice.open)
  {
    var l := Run(model, events, prices);
    UsageIsConserved(model, events, prices);
    DroppedExactly(model, events, prices);
    PlainByParts(l);
  }

  lemma PlainByParts(l: Ledger)
    requires InOrder(l)
    ensures PlainlyConserved(l) <==> l.dropped == Nothing() && l.held == Nothing()
    ensures l.held == Nothing() <==> (l.seen.Some? ==> l.books.slice.open == l.seen.value.slice.open)
  {
  }

  /** A small step that stays in its slice. */
  predicate FirstStep(step: Outcome) {
    && 1 <= |step.figures| <= STEP_MAX_ROUNDS && SmallFigures(step.figures)
    && step.toolCalls <= 10 && step.bytes <= 10 && step.early <= 10 && step.late <= 10
    && step.boundary == AtomicStep && step.compaction == None
  }

  /** A goal cancelled after its first step: what the step used is billed, and is nowhere else. */
  lemma CancelledUsageIsLost(model: string, step: Outcome, prices: Prices)
    requires FirstStep(step) && Free(prices)
    ensures var l := Run(model, [Look, Step(step, true), Clear(true)], prices);
            && !l.overflowed && !PlainlyConserved(l)
            && Total(l.books.accounts) == l.dropped && StepUsage(step) == Some(l.dropped)
            && l.books.slice.open == l.closed == l.direct == Nothing()
  {
    var one, two := [Look], [Look, Step(step, true)];
    OneMoreEvent(model, [], Look, prices);
    OneMoreEvent(model, one, Step(step, true), prices);
    OneMoreEvent(model, two, Clear(true), prices);
    assert [] + [Look] == one && one + [Step(step, true)] == two && two + [Clear(true)] == [Look, Step(step, true), Clear(true)];
    FirstStepIsOpen(Run(model, one, prices), step, prices);
    var l := Run(model, two + [Clear(true)], prices);
    UsageIsConserved(model, two + [Clear(true)], prices);
    assert l.held == Nothing() && l.closed == Nothing() && l.direct == Nothing() && l.books.slice.open == Nothing();
    PlainByParts(l);
    OnlyDropped(l);
  }

  lemma AddsNothing(u: Usage)
    ensures Plus(u, Nothing()) == u
  {
  }

  lemma OnlyDropped(l: Ledger)
    requires Conserved(l) && l.closed == l.direct == l.held == l.books.slice.open == Nothing()
    ensures Total(l.books.accounts) == l.dropped
  {
    AddsNothing(l.closed);
    AddsNothing(l.dropped);
    NothingAdds(l.dropped);
  }

  /** The first step of a goal that nothing was used for. */
  lemma FirstStepIsOpen(l: Ledger, step: Outcome, prices: Prices)
    requires FirstStep(step) && Free(prices) && l.seen == Some(l.books) && AfterSmall(l.(seen := None), 0)
    ensures var after := Stepped(l, step, true, prices);
            && !after.overflowed && after.seen.None? && after.held == Nothing() && after.dropped == l.dropped
            && after.closed == l.closed && after.direct == l.direct
            && StepUsage(step) == Some(after.books.slice.open) && after.books.slice.open != Nothing()
  {
    FoldedSmall(step.figures);
  }

  // ---- What an overflow leaves ----

  /** A step of 512 responses that use a little, closed by the engine. */
  predicate SmallStep(step: Outcome) {
    && |step.figures| == STEP_MAX_ROUNDS && SmallFigures(step.figures)
    && step.toolCalls <= 10 && step.bytes <= 10 && step.early <= 10 && step.late <= 10
    && step.boundary == Time && step.compaction == None
  }

  predicate SmallFigures(figures: seq<Usage>) {
    forall u | u in figures :: 1 <= u.input <= 10 && u.output <= 10 && u.calls <= 10
  }

  lemma {:induction false} FoldedSmall(figures: seq<Usage>)
    requires SmallFigures(figures) && |figures| <= STEP_MAX_ROUNDS
    ensures Folded(figures).Some?
    ensures var u := Folded(figures).value;
            && |figures| <= u.input <= 10 * |figures| && u.cached <= u.input
            && u.output <= 10 * |figures| && u.calls <= 10 * |figures|
  {
    if figures != [] {
      var front, last := figures[..|figures| - 1], figures[|figures| - 1];
      assert last in figures;
      FoldedSmall(front);
    }
  }

  /** Models without a price cost nothing. */
  ghost predicate Free(prices: Prices) {
    forall model, usage :: prices(model)(usage) == Some(0)
  }

  /** A goal with one model after `n` small steps, which no runner has read since. */
  predicate AfterSmall(l: Ledger, n: nat) {
    && l.seen.None?
    && l.books.accounts.Keys == {l.books.model}
    && (var used := l.books.accounts[l.books.model].usage;
        used.input <= 5120 * n && used.cached <= used.input && used.output <= 5120 * n && used.calls <= 10 * n)
    && l.books.slice.open == Nothing() && l.books.slice.openMs == l.books.slice.openBytes == 0
    && l.books.slice.responses == STEP_MAX_ROUNDS * n
    && !l.overflowed
  }

  lemma SmallPlan(l: Ledger, n: nat, step: Outcome, prices: Prices)
    requires AfterSmall(l, n) && n <= U32_MAX / STEP_MAX_ROUNDS + 1 && SmallStep(step) && Free(prices)
    ensures StepUsage(step).Some? && PlanFor(l.books, step, prices).Some?
    ensures var plan := PlanFor(l.books, step, prices).value;
            plan.boundary == Time && plan.bill == StepUsage(step).value && ChargedBooks(l.books, plan.bill, prices).1
  {
    FoldedSmall(step.figures);
  }

  /** The runner reads the goal and takes the step. */
  function Turn(l: Ledger, step: Outcome, prices: Prices): Ledger {
    Next(Next(l, Look, prices), Step(step, true), prices)
  }

  lemma SmallStepCounts(l: Ledger, n: nat, step: Outcome, prices: Prices)
    requires AfterSmall(l, n) && n < U32_MAX / STEP_MAX_ROUNDS && SmallStep(step) && Free(prices)
    ensures AfterSmall(Turn(l, step, prices), n + 1)
  {
    FoldedSmall(step.figures);
    SmallPlan(l, n, step, prices);
  }

  lemma FullOverflows(l: Ledger, n: nat, step: Outcome, prices: Prices)
    requires AfterSmall(l, n) && n == U32_MAX / STEP_MAX_ROUNDS && SmallStep(step) && Free(prices) && InOrder(l)
    ensures var after := Turn(l, step, prices);
            after.overflowed && !Conserved(after)
  {
    FoldedSmall(step.figures);
    SmallPlan(l, n, step, prices);
    LeaveKeepsOrder(l);
    var looked := Next(l, Look, prices);
    var plan := PlanFor(l.books, step, prices).value;
    ChargedIsSum(l.books, plan.bill, prices);
    assert !Counted(l.books.slice, plan, |step.figures|).1;
    assert Conserved(looked);
  }

  function Repeated(step: Outcome, n: nat): seq<Event> {
    if n == 0 then [] else Repeated(step, n - 1) + [Look] + [Step(step, true)]
  }

  lemma OneMoreTurn(model: string, events: seq<Event>, step: Outcome, prices: Prices)
    ensures Run(model, events + [Look] + [Step(step, true)], prices) == Turn(Run(model, events, prices), step, prices)
  {
    OneMoreEvent(model, events, Look, prices);
    OneMoreEvent(model, events + [Look], Step(step, true), prices);
  }

  lemma SmallTurnCounts(model: string, events: seq<Event>, step: Outcome, n: nat, prices: Prices)
    requires AfterSmall(Run(model, events, prices), n) && n < U32_MAX / STEP_MAX_ROUNDS && SmallStep(step) && Free(prices)
    ensures AfterSmall(Run(model, events + [Look] + [Step(step, true)], prices), n + 1)
  {
    OneMoreTurn(model, events, step, prices);
    SmallStepCounts(Run(model, events, prices), n, step, prices);
  }

  lemma {:induction false} SmallStepsCount(model: string, step: Outcome, n: nat, prices: Prices)
    requires n <= U32_MAX / STEP_MAX_ROUNDS && SmallStep(step) && Free(prices)
    ensures AfterSmall(Run(model, Repeated(step, n), prices), n)
  {
    if n > 0 {
      SmallStepsCount(model, step, n - 1, prices);
      SmallTurnCounts(model, Repeated(step, n - 1), step, n - 1, prices);
    }
  }

  /**
   The condition on overflows is needed: 2^23 steps of 512 responses overflow the response
   counter, and the change that fails has charged its account before.
   */
  lemma OverflowUnbalances(model: string, step: Outcome, n: nat, prices: Prices)
    requires n == U32_MAX / STEP_MAX_ROUNDS && SmallStep(step) && Free(prices)
    ensures var l := Run(model, Repeated(step, n) + [Look] + [Step(step, true)], prices);
            l.overflowed && !Conserved(l)
  {
    SmallStepsCount(model, step, n, prices);
    UsageIsConserved(model, Repeated(step, n), prices);
    OneMoreTurn(model, Repeated(step, n), step, prices);
    FullOverflows(Run(model, Repeated(step, n), prices), n, step, prices);
  }
}
