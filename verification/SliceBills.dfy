/**
 What the runs of `SliceAccounting` bill, in figures: what the provider reported, the compactions
 that ran, and the charges outside of slices.
 */
module SliceBills {
  import opened Options
  import opened SliceAccounting

  /** Cached input counts only as far as there is input. */
  function Capped(u: Usage): Usage {
    u.(cached := if u.cached < u.input then u.cached else u.input)
  }

  // ---- A step ----

  /** All figures of a step together. */
  function Added(figures: seq<Usage>): Usage {
    if figures == [] then Nothing()
    else Plus(Added(figures[..|figures| - 1]), Capped(figures[|figures| - 1]))
  }

  lemma {:induction false} FoldedExactly(figures: seq<Usage>)
    ensures var all := Added(figures);
            Folded(figures) == if all.input <= SLICE_MAX_INPUT_TOKENS && all.output <= SLICE_MAX_OUTPUT_TOKENS && all.calls <= U32_MAX
                               then Some(all) else None
    ensures Added(figures).cached <= Added(figures).input
  {
    if figures != [] {
      FoldedExactly(figures[..|figures| - 1]);
    }
  }

  /** The engine reports a step exactly if it is within every limit, and then with all of its figures. */
  lemma StepUsageExactly(step: Outcome)
    ensures var all := Added(step.figures);
            StepUsage(step) == if && all.input <= SLICE_MAX_INPUT_TOKENS && all.output <= SLICE_MAX_OUTPUT_TOKENS
                                  && all.calls <= U32_MAX && |step.figures| <= STEP_MAX_ROUNDS
                                  && step.toolCalls <= STEP_MAX_TOOL_CALLS
                               then Some(Usage(all.input, all.cached, all.output, step.toolCalls)) else None
  {
    FoldedExactly(step.figures);
  }

  // ---- A plan ----

  /**
   A compaction runs when the engine asks for a boundary other than that of the budget, or asks
   for none and a limit is reached without it.
   */
  predicate CompactionRuns(s: Slice, step: Outcome, usage: Usage) {
    && step.compaction.Some?
    && step.boundary != Budget
    && (|| step.boundary != AtomicStep
        || s.openMs + step.early >= SLICE_MAX_ACTIVE_MS
        || s.open.input + usage.input >= SLICE_MAX_INPUT_TOKENS
        || s.open.output + usage.output >= SLICE_MAX_OUTPUT_TOKENS
        || s.openBytes + step.bytes >= SLICE_MAX_TOOL_RESULT_BYTES)
  }

  /** What a step uses, with its compaction if that runs. */
  function UsedBy(s: Slice, step: Outcome, usage: Usage): Usage {
    if CompactionRuns(s, step, usage) then Plus(usage, Capped(step.compaction.value)) else usage
  }

  /** A plan bills what the step uses, and adds it to the open slice. */
  lemma PlanBillsWhatIsUsed(g: Books, step: Outcome, prices: Prices)
    requires PlanFor(g, step, prices).Some?
    ensures var plan, used := PlanFor(g, step, prices).value, UsedBy(g.slice, step, StepUsage(step).value);
            && plan.bill == used
            && plan.total == Plus(g.slice.open, used)
            && plan.activeMs == g.slice.openMs + step.late
            && plan.bytes == g.slice.openBytes + step.bytes
  {
    FoldedCapsCached(step.figures);
  }

  /**
   The slice ends where the engine says, or at the first limit that is reached: before a
   compaction all of them count, after it there is only the time that went on.
   */
  lemma PlanEndsSlice(g: Books, step: Outcome, prices: Prices)
    requires PlanFor(g, step, prices).Some?
    ensures var s, usage, boundary := g.slice, StepUsage(step).value, PlanFor(g, step, prices).value.boundary;
            boundary ==
              if step.boundary != AtomicStep then step.boundary
              else if s.openMs + step.early >= SLICE_MAX_ACTIVE_MS then Time
              else if s.open.input + usage.input >= SLICE_MAX_INPUT_TOKENS then InputTokens
              else if s.open.output + usage.output >= SLICE_MAX_OUTPUT_TOKENS then OutputTokens
              else if s.openBytes + step.bytes >= SLICE_MAX_TOOL_RESULT_BYTES then ToolResultBytes
              else if s.openMs + step.late >= SLICE_MAX_ACTIVE_MS then Time
              else AtomicStep
  {
    FoldedCapsCached(step.figures);
  }

  /** The counters are in range. */
  predicate InRange(u: Usage) {
    u.input <= U64_MAX && u.cached <= U64_MAX && u.output <= U64_MAX && u.calls <= U32_MAX
  }

  /** There is a plan exactly if the step is reported, its model can be charged and no sum overflows. */
  lemma PlannedExactly(g: Books, step: Outcome, prices: Prices)
    requires StepUsage(step).Some?
    ensures var s, usage := g.slice, StepUsage(step).value;
            PlanFor(g, step, prices).Some?
            <==> && g.model in g.accounts && InRange(Plus(g.accounts[g.model].usage, usage))
                 && prices(g.model)(Plus(g.accounts[g.model].usage, usage)).Some?
                 && InRange(Plus(s.open, usage)) && s.openBytes + step.bytes <= U64_MAX
                 && s.openMs + step.early <= U64_MAX && s.openMs + step.late <= U64_MAX
                 && InRange(UsedBy(s, step, usage)) && InRange(Plus(s.open, UsedBy(s, step, usage)))
  {
    FoldedCapsCached(step.figures);
    var usage := StepUsage(step).value;
    if g.model in g.accounts {
      assert Sum(g.accounts[g.model].usage, usage) == Plus(g.accounts[g.model].usage, usage);
    }
    assert Sum(g.slice.open, usage) == Plus(g.slice.open, usage);
  }

  // ---- Runs ----

  /** What an event bills, and saves. */
  function BillOf(l: Ledger, event: Event, prices: Prices): Usage {
    match event
    case Step(step, saved) =>
      if saved && l.seen.Some? && PlanFor(l.seen.value, step, prices).Some?
      then UsedBy(l.seen.value.slice, step, StepUsage(step).value) else Nothing()
    case Charge(usage, saved) => if saved then Capped(usage) else Nothing()
    case _ => Nothing()
  }

  /** What was billed over a run while this was the model of the goal. */
  function BilledTo(name: string, model: string, events: seq<Event>, prices: Prices): Usage {
    if events == [] then Nothing()
    else
      var front, last := events[..|events| - 1], events[|events| - 1];
      var l := Run(model, front, prices);
      Plus(BilledTo(name, model, front, prices), For(name, l.books, BillOf(l, last, prices)))
  }

  function UsageOf(g: Books, name: string): Usage {
    if name in g.accounts then g.accounts[name].usage else Nothing()
  }

  /** An account costs what the price of its usage is, once it was charged. */
  predicate Priced(g: Books, name: string, prices: Prices) {
    name in g.accounts ==>
      g.accounts[name] == Billed(Nothing(), 0) || prices(name)(g.accounts[name].usage) == Some(g.accounts[name].spent)
  }

  /** The account grows by this usage, and is priced again. */
  predicate Grows(before: Books, after: Books, name: string, amount: Usage, prices: Prices) {
    && UsageOf(after, name) == Plus(UsageOf(before, name), amount)
    && (Priced(before, name, prices) ==> Priced(after, name, prices))
  }

  function For(name: string, g: Books, amount: Usage): Usage {
    if g.model == name then amount else Nothing()
  }

  lemma SameAccounts(before: Books, after: Books, name: string, prices: Prices)
    requires after.accounts == before.accounts
    ensures Grows(before, after, name, Nothing(), prices)
  {
    AddsNothing(UsageOf(before, name));
  }

  lemma EventBills(l: Ledger, event: Event, name: string, prices: Prices)
    requires !Next(l, event, prices).overflowed
    ensures Grows(l.books, Next(l, event, prices).books, name, For(name, l.books, BillOf(l, event, prices)), prices)
  {
    match event
    case Look => SameAccounts(l.books, Next(l, event, prices).books, name, prices);
    case Step(step, saved) => StepBills(l, step, saved, name, prices);
    case Leave => SameAccounts(l.books, Next(l, event, prices).books, name, prices);
    case Charge(usage, saved) =>
      if saved {
        ChargedBills(l.books, usage, name, prices);
      } else {
        SameAccounts(l.books, l.books, name, prices);
      }
    case SwitchModel(other, kept) =>
      if kept {
        SwitchBills(l.books, other, name, prices);
      } else {
        SameAccounts(l.books, l.books, name, prices);
      }
    case Clear(saved) => SameAccounts(l.books, Next(l, event, prices).books, name, prices);
  }

  /** The first use of a model opens an account that nothing was billed to. */
  lemma SwitchBills(g: Books, other: string, name: string, prices: Prices)
    ensures Grows(g, Switched(g, other), name, Nothing(), prices)
  {
    if other in g.accounts {
      SameAccounts(g, Switched(g, other), name, prices);
    } else {
      AddsNothing(UsageOf(g, name));
      NewAccount(g, other, Nothing(), name, prices);
    }
  }

  lemma NewAccount(g: Books, other: string, zero: Usage, name: string, prices: Prices)
    requires other !in g.accounts && zero == Nothing()
    ensures Grows(g, g.(accounts := g.accounts[other := Billed(zero, 0)], model := other), name, zero, prices)
  {
    AddsNothing(UsageOf(g, name));
  }

  /** A charge reaches the account of the goal's model, and no other. */
  lemma ChargedBills(g: Books, usage: Usage, name: string, prices: Prices)
    requires ChargedBooks(g, usage, prices).1
    ensures Grows(g, ChargedBooks(g, usage, prices).0, name, For(name, g, Capped(usage)), prices)
  {
  }

  lemma StepBills(l: Ledger, step: Outcome, saved: bool, name: string, prices: Prices)
    requires !Stepped(l, step, saved, prices).overflowed
    ensures Grows(l.books, Stepped(l, step, saved, prices).books, name, For(name, l.books, BillOf(l, Step(step, saved), prices)), prices)
  {
    if saved && l.seen.Some? && PlanFor(l.seen.value, step, prices).Some? {
      var plan := PlanFor(l.seen.value, step, prices).value;
      PlanBillsWhatIsUsed(l.seen.value, step, prices);
      UsedIsCapped(l.seen.value.slice, step);
      CommittedCharges(l, step, prices);
      ChargedBills(l.books, plan.bill, name, prices);
    } else {
      SameAccounts(l.books, Stepped(l, step, saved, prices).books, name, prices);
    }
  }

  lemma CommittedCharges(l: Ledger, step: Outcome, prices: Prices)
    requires l.seen.Some? && PlanFor(l.seen.value, step, prices).Some? && !Stepped(l, step, true, prices).overflowed
    ensures var bill := PlanFor(l.seen.value, step, prices).value.bill;
            && ChargedBooks(l.books, bill, prices).1
            && Stepped(l, step, true, prices).books.accounts == ChargedBooks(l.books, bill, prices).0.accounts
  {
  }

  /** A switch that is kept makes the other model the goal's, and leaves every account as it is. */
  lemma SwitchTakesOver(model: string, events: seq<Event>, other: string, name: string, prices: Prices)
    ensures var g, now := Run(model, events, prices).books, Run(model, events + [SwitchModel(other, true)], prices).books;
            && now.model == other && other in now.accounts && now.slice == g.slice
            && now.accounts.Keys == g.accounts.Keys + {other} && UsageOf(now, name) == UsageOf(g, name)
  {
    OneMoreEvent(model, events, SwitchModel(other, true), prices);
  }

  lemma UsedIsCapped(s: Slice, step: Outcome)
    requires StepUsage(step).Some?
    ensures UsedBy(s, step, StepUsage(step).value).cached <= UsedBy(s, step, StepUsage(step).value).input
  {
    FoldedCapsCached(step.figures);
  }

  /**
   After every run without overflow each account holds exactly what was used while its model was
   the goal's: the steps that were committed, the compactions that ran, and the direct charges. It
   costs what that usage costs.
   */
  lemma {:induction false} BilledIsUsed(name: string, model: string, events: seq<Event>, prices: Prices)
    requires !Run(model, events, prices).overflowed
    ensures UsageOf(Run(model, events, prices).books, name) == BilledTo(name, model, events, prices)
    ensures Priced(Run(model, events, prices).books, name, prices)
  {
    if events != [] {
      var front, last := events[..|events| - 1], events[|events| - 1];
      var l := Run(model, front, prices);
      if l.overflowed {
        OverflowStays(l, last, prices);
      }
      BilledIsUsed(name, model, front, prices);
      EventBills(l, last, name, prices);
    }
  }
}
