/**
 Whole runs of the registry, and of the log of its cancellations that they are compared
 with.
 */
module RegistryRuns {
  import opened CancellationLog
  import opened RunRegistry

  datatype Event =
    | RegisterEvent(id: string, resource: string, now: nat)
    | CancelEvent(id: string, now: nat)
    | FinishEvent(id: string)

  // ---- Runs ----

  function Step(v: View, event: Event): View {
    match event
    case RegisterEvent(id, resource, now) => Register(v, id, resource, now).0
    case CancelEvent(id, now) => Cancel(v, id, now)
    case FinishEvent(id) => Finish(v, id)
  }

  function LogStep(log: seq<Record>, v: View, event: Event): seq<Record> {
    match event
    case RegisterEvent(id, resource, now) =>
      if id in v.active || resource in v.resources then log else Use(log, id, now)
    case CancelEvent(id, now) =>
      if id in v.active then log else LogCancel(log, id, now)
    case FinishEvent(_) => log
  }

  function Play(v: View, events: seq<Event>): View {
    if events == [] then v else Step(Play(v, events[..|events| - 1]), events[|events| - 1])
  }

  function After(history: seq<Event>): View {
    Play(EMPTY, history)
  }

  function LogOf(history: seq<Event>): seq<Record> {
    if history == [] then []
    else
      var front := history[..|history| - 1];
      LogStep(LogOf(front), After(front), history[|history| - 1])
  }

  /** The time of the latest timed event. */
  function Clock(history: seq<Event>): nat {
    if history == [] then 0
    else
      var last := history[|history| - 1];
      if last.FinishEvent? then Clock(history[..|history| - 1]) else last.now
  }

  /** The clock never goes back. */
  predicate Monotonic(history: seq<Event>) {
    if history == [] then true
    else
      var front := history[..|history| - 1];
      Monotonic(front) && Clock(front) <= Clock(history)
  }

  // ---- The two maps ----

  ghost predicate MapsInverse(v: View) {
    && (forall id | id in v.active :: v.active[id].resource in v.resources && v.resources[v.active[id].resource] == id)
    && (forall key | key in v.resources :: v.resources[key] in v.active && v.active[v.resources[key]].resource == key)
  }

  lemma {:induction false} PlayKeepsMapsInverse(v: View, events: seq<Event>)
    requires MapsInverse(v)
    ensures MapsInverse(Play(v, events))
  {
    if events != [] {
      PlayKeepsMapsInverse(v, events[..|events| - 1]);
      StepKeepsMapsInverse(Play(v, events[..|events| - 1]), events[|events| - 1]);
    }
  }

  lemma StepKeepsMapsInverse(v: View, event: Event)
    requires MapsInverse(v)
    ensures MapsInverse(Step(v, event))
  {
  }

  /** In every reachable state the maps name each other, so no two active runs share a resource. */
  lemma MapsStayInverse(history: seq<Event>, a: string, b: string)
    ensures MapsInverse(After(history))
    ensures var active := After(history).active;
            a in active && b in active && active[a].resource == active[b].resource ==> a == b
  {
    PlayKeepsMapsInverse(EMPTY, history);
  }

  // ---- From a registration to its finish ----

  /** Whatever the others do, an entry stays until its own finish; a cancellation is never taken back. */
  lemma {:induction false} HeldUntilFinished(v: View, id: string, events: seq<Event>)
    requires MapsInverse(v) && id in v.active && FinishEvent(id) !in events
    ensures MapsInverse(Play(v, events))
    ensures id in Play(v, events).active
    ensures Play(v, events).active[id].resource == v.active[id].resource
    ensures v.active[id].cancelled ==> Play(v, events).active[id].cancelled
  {
    PlayKeepsMapsInverse(v, events);
    if events != [] {
      HeldUntilFinished(v, id, events[..|events| - 1]);
    }
  }

  /** Event `k` registered the run, and nothing has finished it since. */
  ghost predicate RegisteredSince(history: seq<Event>, k: nat, id: string) {
    && k < |history| && history[k].RegisterEvent? && history[k].id == id
    && Register(After(history[..k]), id, history[k].resource, history[k].now).1.Registered?
    && forall j | k < j < |history| :: history[j] != FinishEvent(id)
  }

  lemma RegisteredLater(history: seq<Event>, event: Event, k: nat, id: string)
    requires k < |history|
    ensures RegisteredSince(history + [event], k, id) <==> RegisteredSince(history, k, id) && event != FinishEvent(id)
  {
    assert (history + [event])[..k] == history[..k];
    assert (history + [event])[|history|] == event;
    assert forall j | 0 <= j < |history| :: history[j] == (history + [event])[j];
  }

  /** The cancellation was waiting at the registration, or came after it. */
  ghost predicate CancelledSince(history: seq<Event>, k: nat, id: string)
    requires RegisteredSince(history, k, id)
  {
    || Register(After(history[..k]), id, history[k].resource, history[k].now).1.cancelled
    || exists j | k < j < |history| :: history[j].CancelEvent? && history[j].id == id
  }

  lemma CancelledLater(history: seq<Event>, event: Event, k: nat, id: string)
    requires RegisteredSince(history, k, id) && RegisteredSince(history + [event], k, id)
    ensures CancelledSince(history + [event], k, id)
       <==> CancelledSince(history, k, id) || (event.CancelEvent? && event.id == id)
  {
    assert (history + [event])[..k] == history[..k];
    if j: int :| k < j < |history| && history[j].CancelEvent? && history[j].id == id {
      assert (history + [event])[j] == history[j];
    }
    if event.CancelEvent? && event.id == id {
      assert (history + [event])[|history|] == event;
    }
  }

  /**
   In every run the active ids are those that were registered and not finished since, and an
   active run is cancelled exactly if a cancellation waited for its registration or came later.
   */
  lemma {:induction false} ActiveExactly(history: seq<Event>, id: string)
    ensures id in After(history).active <==> exists k: nat :: RegisteredSince(history, k, id)
    ensures forall k: nat | RegisteredSince(history, k, id) ::
      id in After(history).active && (After(history).active[id].cancelled <==> CancelledSince(history, k, id))
  {
    if history != [] {
      var front, event := history[..|history| - 1], history[|history| - 1];
      assert history == front + [event];
      ActiveExactly(front, id);
      forall k: nat | RegisteredSince(history, k, id)
        ensures id in After(history).active && (After(history).active[id].cancelled <==> CancelledSince(history, k, id))
      {
        StillActive(front, event, k, id);
      }
      if id in After(history).active {
        WasRegistered(front, event, id);
      }
    }
  }

  lemma StillActive(front: seq<Event>, event: Event, k: nat, id: string)
    requires RegisteredSince(front + [event], k, id)
    requires forall j: nat | RegisteredSince(front, j, id) ::
      id in After(front).active && (After(front).active[id].cancelled <==> CancelledSince(front, j, id))
    ensures var history := front + [event];
            id in After(history).active && (After(history).active[id].cancelled <==> CancelledSince(history, k, id))
  {
    OneMoreStep(front, event);
    if k < |front| {
      RegisteredLater(front, event, k, id);
      CancelledLater(front, event, k, id);
      StepOnActive(After(front), event, id);
    } else {
      assert (front + [event])[..k] == front;
      NewlyActive(After(front), event);
    }
  }

  /** What an event does to an active run. */
  lemma StepOnActive(v: View, event: Event, id: string)
    requires id in v.active && event != FinishEvent(id)
    ensures id in Step(v, event).active
    ensures Step(v, event).active[id].cancelled <==> v.active[id].cancelled || (event.CancelEvent? && event.id == id)
  {
  }

  lemma NewlyActive(v: View, event: Event)
    requires event.RegisterEvent?
    ensures var (after, outcome) := Register(v, event.id, event.resource, event.now);
            outcome.Registered? ==> event.id in after.active && after.active[event.id].cancelled == outcome.cancelled
  {
  }

  lemma WasRegistered(front: seq<Event>, event: Event, id: string)
    requires id in After(front + [event]).active
    requires id in After(front).active ==> exists k: nat :: RegisteredSince(front, k, id)
    ensures exists k: nat :: RegisteredSince(front + [event], k, id)
  {
    OneMoreStep(front, event);
    if id in After(front).active {
      var k: nat :| RegisteredSince(front, k, id);
      RegisteredLater(front, event, k, id);
    } else {
      assert (front + [event])[..|front|] == front;
      assert RegisteredSince(front + [event], |front|, id);
    }
  }

  lemma OneMoreStep(history: seq<Event>, event: Event)
    ensures After(history + [event]) == Step(After(history), event)
  {
    assert (history + [event])[..|history|] == history;
  }

  /** While a run is active, no registration of its id or of its resource succeeds. */
  lemma ActiveRunExcludes(v: View, id: string, events: seq<Event>, other: string, resource: string, now: nat)
    requires MapsInverse(v) && id in v.active && FinishEvent(id) !in events
    requires other == id || resource == v.active[id].resource
    ensures var (after, outcome) := Register(Play(v, events), other, resource, now);
            && !outcome.Registered?
            && after.active == Play(v, events).active
            && after.resources == Play(v, events).resources
  {
    HeldUntilFinished(v, id, events);
  }

  /** Its finish removes exactly its own two entries, so both keys are free again. */
  lemma FinishFreesBoth(v: View, id: string, events: seq<Event>, now: nat)
    requires MapsInverse(v) && id in v.active && FinishEvent(id) !in events
    ensures var before, after := Play(v, events), Finish(Play(v, events), id);
            && MapsInverse(after)
            && after.active == before.active - {id}
            && after.resources == before.resources - {v.active[id].resource}
            && after.pending == before.pending
            && Register(after, id, v.active[id].resource, now).1.Registered?
  {
    HeldUntilFinished(v, id, events);
  }

  /** The registry methods, driven by one event. */
  method Perform(registry: ReviewRunRegistry, event: Event)
    requires registry.Valid()
    modifies registry, registry.Flags()
    ensures registry.Valid() && fresh(registry.Flags() - old(registry.Flags()))
    ensures registry.Value() == Step(old(registry.Value()), event)
  {
    match event
    case RegisterEvent(id, resource, now) => var _, _ := registry.RegisterAt(id, resource, now);
    case CancelEvent(id, now) => registry.CancelAt(id, now);
    case FinishEvent(id) => registry.FinishRun(id);
  }

  method PerformAll(registry: ReviewRunRegistry, events: seq<Event>)
    requires registry.Valid()
    modifies registry, registry.Flags()
    ensures registry.Valid() && fresh(registry.Flags() - old(registry.Flags()))
    ensures registry.Value() == Play(old(registry.Value()), events)
  {
    for k := 0 to |events|
      invariant registry.Valid() && fresh(registry.Flags() - old(registry.Flags()))
      invariant registry.Value() == Play(old(registry.Value()), events[..k])
    {
      assert events[..k + 1][..k] == events[..k];
      Perform(registry, events[k]);
    }
    assert events[..|events|] == events;
  }

  /** The maps are `before` without the entries of one run. */
  predicate Released(after: View, before: View, id: string, resource: string) {
    after.active == before.active - {id} && after.resources == before.resources - {resource}
  }

  /** A registration enters exactly the two entries, and fails exactly if one of the keys is taken. */
  lemma RegisterEnters(v: View, id: string, resource: string, now: nat)
    requires MapsInverse(v)
    ensures var (entered, outcome) := Register(v, id, resource, now);
            && MapsInverse(entered)
            && (outcome.Registered? <==> id !in v.active && resource !in v.resources)
            && (outcome.Registered? ==> id in entered.active && entered.active[id].resource == resource)
            && (outcome.Registered? ==> Released(v, entered, id, resource) && entered.active.Keys == v.active.Keys + {id})
            && (!outcome.Registered? ==> entered.active == v.active && entered.resources == v.resources)
  {
    StepKeepsMapsInverse(v, RegisterEvent(id, resource, now));
    var (entered, outcome) := Register(v, id, resource, now);
    if outcome.Registered? {
      assert entered.active - {id} == v.active;
      assert entered.resources - {resource} == v.resources;
    }
  }

  /** A run that is finished after others acted leaves what they made of the maps, without its entries. */
  lemma FinishReleases(v: View, id: string, resource: string, events: seq<Event>)
    requires MapsInverse(v) && id in v.active && v.active[id].resource == resource && FinishEvent(id) !in events
    ensures var before := Play(v, events);
            && MapsInverse(before) && id in before.active && before.active[id].resource == resource
            && resource in before.resources && before.resources[resource] == id
            && MapsInverse(Finish(before, id)) && Released(Finish(before, id), before, id, resource)
  {
    HeldUntilFinished(v, id, events);
    FinishFreesBoth(v, id, events, 0);
  }

  datatype StartResult = Rejected | CancelledAtStart | Ended

  /** The registry when a start has returned; `others` is what other callers did to it meanwhile. */
  function Started(v: View, id: string, resource: string, now: nat, others: seq<Event>): (View, StartResult) {
    var (entered, outcome) := Register(v, id, resource, now);
    if !outcome.Registered? then (entered, Rejected)
    else if outcome.cancelled then (Finish(entered, id), CancelledAtStart)
    else (Finish(Play(entered, others), id), Ended)
  }

  /** The start of a run: its exits after a successful registration all finish it. */
  method Start(registry: ReviewRunRegistry, id: string, resource: string, now: nat, others: seq<Event>)
    returns (result: StartResult)
    requires registry.Valid()
    modifies registry, registry.Flags()
    ensures registry.Valid()
    ensures (registry.Value(), result) == Started(old(registry.Value()), id, resource, now, others)
  {
    var outcome, token := registry.RegisterAt(id, resource, now);
    if !outcome.Registered? {
      return Rejected;
    }
    if token.flag {
      registry.FinishRun(id);
      return CancelledAtStart;
    }
    PerformAll(registry, others);
    registry.FinishRun(id);
    result := Ended;
  }

  /**
   A rejected start and one that was cancelled beforehand leave both maps as they were; one
   that worked takes its two entries out of whatever the others made of the maps.
   */
  lemma StartRestoresMaps(v: View, id: string, resource: string, now: nat, others: seq<Event>)
    requires MapsInverse(v) && FinishEvent(id) !in others
    ensures var (after, result) := Started(v, id, resource, now, others);
            && MapsInverse(after)
            && (result.Rejected? <==> id in v.active || resource in v.resources)
            && (result.CancelledAtStart? <==> !result.Rejected? && Waiting(Prune(v.pending, now), id))
            && (result.Ended? ==>
                  var before := Play(Register(v, id, resource, now).0, others);
                  && resource in before.resources && before.resources[resource] == id
                  && after.active == before.active - {id}
                  && after.resources == before.resources - {resource})
            && (!result.Ended? ==> after.active == v.active && after.resources == v.resources)
  {
    var (entered, outcome) := Register(v, id, resource, now);
    RegisterEnters(v, id, resource, now);
    if outcome.Registered? {
      FinishReleases(entered, id, resource, others);
      FinishReleases(entered, id, resource, []);
    }
  }

  // ---- Creating a goal ----

  datatype CreateResult = CreateRejected | DigestFailed | CreateFailed | Ran

  /**
   The registry when the creation of a goal, and the run it launches, have returned. `during` is
   what other callers did while the work tree was digested, `others` what they did during the run.
   */
  function Created(v: View, id: string, resource: string, now: nat, digested: bool, created: bool,
                   during: seq<Event>, others: seq<Event>): (View, CreateResult)
  {
    var (entered, outcome) := Register(v, id, resource, now);
    var waited := Play(entered, during);
    if !outcome.Registered? then (entered, CreateRejected)
    else if !digested then (waited, DigestFailed)
    else if !created then (Finish(waited, id), CreateFailed)
    else (Finish(Play(waited, others), id), Ran)
  }

  /** The creation of a goal; a digest that fails returns without a finish. */
  method CreateGoal(registry: ReviewRunRegistry, id: string, resource: string, now: nat, digested: bool, created: bool,
                    during: seq<Event>, others: seq<Event>)
    returns (result: CreateResult)
    requires registry.Valid()
    modifies registry, registry.Flags()
    ensures registry.Valid()
    ensures (registry.Value(), result) == Created(old(registry.Value()), id, resource, now, digested, created, during, others)
  {
    var outcome, _ := registry.RegisterAt(id, resource, now);
    if !outcome.Registered? {
      return CreateRejected;
    }
    PerformAll(registry, during);
    if !digested {
      return DigestFailed;
    }
    if !created {
      registry.FinishRun(id);
      return CreateFailed;
    }
    PerformAll(registry, others);
    registry.FinishRun(id);
    result := Ran;
  }

  /**
   A creation that was registered takes its entries out again on every exit but the failed
   digest; left to itself it restores both maps exactly unless the digest failed.
   */
  lemma CreateRestoresExactly(v: View, id: string, resource: string, now: nat, digested: bool, created: bool,
                              during: seq<Event>, others: seq<Event>)
    requires MapsInverse(v) && FinishEvent(id) !in during && FinishEvent(id) !in others
    ensures var (after, result) := Created(v, id, resource, now, digested, created, during, others);
            var waited := Play(Register(v, id, resource, now).0, during);
            && MapsInverse(after)
            && (result.CreateRejected? <==> id in v.active || resource in v.resources)
            && (result.DigestFailed? <==> !result.CreateRejected? && !digested)
            && (result.CreateFailed? <==> !result.CreateRejected? && digested && !created)
            && (result.CreateRejected? ==> after.active == v.active && after.resources == v.resources)
            && (result.DigestFailed? || result.CreateFailed? ==>
                  (Released(after, waited, id, resource) <==> result.CreateFailed?))
            && (result.Ran? ==> Released(after, Play(waited, others), id, resource))
            && (during == [] && !result.Ran? ==>
                  (after.active == v.active && after.resources == v.resources <==> !result.DigestFailed?))
  {
    var (entered, outcome) := Register(v, id, resource, now);
    RegisterEnters(v, id, resource, now);
    if outcome.Registered? {
      FinishReleases(entered, id, resource, during);
      FinishReleases(Play(entered, during), id, resource, others);
    }
  }

  /**
   After a failed digest every further registration of the goal or of its resource is rejected,
   whatever happens, until something finishes the run; the program never does.
   */
  lemma FailedDigestStaysBusy(v: View, id: string, resource: string, now: nat, created: bool, during: seq<Event>,
                              others: seq<Event>, events: seq<Event>, other: string, key: string, later: nat)
    requires MapsInverse(v) && id !in v.active && resource !in v.resources
    requires FinishEvent(id) !in during && FinishEvent(id) !in events && (other == id || key == resource)
    ensures var after := Play(Created(v, id, resource, now, false, created, during, others).0, events);
            !Register(after, other, key, later).1.Registered?
  {
    var entered := Register(v, id, resource, now).0;
    HeldUntilFinished(entered, id, during);
    ActiveRunExcludes(Play(entered, during), id, events, other, key, later);
  }

  // ---- Refinement ----

  /** The state of a run and the log of the same run. */
  ghost predicate Agree(v: View, log: seq<Record>, now: nat) {
    v.pending == LiveTombs(log, now) && QueueInvariant(v.pending, v, now)
  }

  lemma PruneAgrees(v: View, log: seq<Record>, now: nat, later: nat)
    requires Agree(v, log, now) && now <= later
    ensures Prune(v.pending, later) == LiveTombs(log, later) && QueueInvariant(Prune(v.pending, later), v, later)
  {
    PruneKeepsInvariant(v.pending, v, now, later);
    LiveLater(log, now, later);
  }

  lemma RegisterAgrees(v: View, log: seq<Record>, id: string, resource: string, now: nat, later: nat)
    requires Agree(v, log, now) && now <= later
    ensures Agree(Register(v, id, resource, later).0, LogStep(log, v, RegisterEvent(id, resource, later)), later)
    ensures Register(v, id, resource, later).1.Registered? ==>
              (Register(v, id, resource, later).1.cancelled <==> HasLive(log, id, later))
  {
    PruneAgrees(v, log, now, later);
    var pending := Prune(v.pending, later);
    if id !in v.active && resource !in v.resources {
      WaitingIsLive(log, id, later);
      UseRemoves(log, id, later);
      AdmitKeepsInvariant(pending, v, id, Run(resource, Waiting(pending, id)), later);
    }
  }

  lemma NewTombAgrees(v: View, log: seq<Record>, id: string, now: nat)
    requires Agree(v, log, now) && id !in v.active && !HasLive(log, id, now)
    ensures var pending := Prune(v.pending + [Tomb(id, now)], now);
            Agree(v.(pending := pending), LogCancel(log, id, now), now)
  {
    var more := log + [Record(id, now, Unused)];
    assert more[..|log|] == log;
    assert LiveTombs(more, now) == v.pending + [Tomb(id, now)];
    WaitingIsLive(log, id, now);
    AppendKeepsInvariant(v.pending, v, id, now);
    PruneOneOver(v.pending + [Tomb(id, now)], now);
    DisplaceDropsOldest(more, now);
    SameQueueInvariant(Prune(v.pending + [Tomb(id, now)], now), v, v.(pending := Prune(v.pending + [Tomb(id, now)], now)), now);
  }

  lemma CancelAgrees(v: View, log: seq<Record>, id: string, now: nat, later: nat)
    requires Agree(v, log, now) && now <= later
    ensures Agree(Cancel(v, id, later), LogStep(log, v, CancelEvent(id, later)), later)
  {
    PruneAgrees(v, log, now, later);
    var pruned := v.(pending := Prune(v.pending, later));
    SameQueueInvariant(pruned.pending, v, pruned, later);
    WaitingIsLive(log, id, later);
    if id in v.active {
      SameQueueInvariant(pruned.pending, v, Cancel(v, id, later), later);
    } else if !HasLive(log, id, later) {
      NewTombAgrees(pruned, log, id, later);
    }
  }

  /**
   Over every run with a monotonic clock the queue is exactly the log's unused, young,
   undisplaced records in order; it is time-sorted, free of duplicates, bounded, and names
   no active run.
   */
  lemma {:induction false} QueueRefinesLog(history: seq<Event>)
    requires Monotonic(history)
    ensures Agree(After(history), LogOf(history), Clock(history))
  {
    if history != [] {
      var front, last := history[..|history| - 1], history[|history| - 1];
      QueueRefinesLog(front);
      match last
      case RegisterEvent(id, resource, now) => RegisterAgrees(After(front), LogOf(front), id, resource, Clock(front), now);
      case CancelEvent(id, now) => CancelAgrees(After(front), LogOf(front), id, Clock(front), now);
      case FinishEvent(id) =>
    }
  }

  /**
   A registration that succeeds is cancelled exactly when the log holds a record of that run
   id that is unused, younger than the limit and not displaced.
   */
  lemma CancelledExactlyByLiveRecord(history: seq<Event>, id: string, resource: string, now: nat)
    requires Monotonic(history) && Clock(history) <= now
    ensures var outcome := Register(After(history), id, resource, now).1;
            outcome.Registered? ==> (outcome.cancelled <==> HasLive(LogOf(history), id, now))
  {
    QueueRefinesLog(history);
    RegisterAgrees(After(history), LogOf(history), id, resource, Clock(history), now);
  }

  // ---- A cancellation that arrives first ----

  function Cancels(events: seq<Event>): nat {
    if events == [] then 0
    else Cancels(events[..|events| - 1]) + (if events[|events| - 1].CancelEvent? then 1 else 0)
  }

  predicate Registers(events: seq<Event>, id: string) {
    exists i | 0 <= i < |events| :: events[i].RegisterEvent? && events[i].id == id
  }

  /** How one step may change an unused record. */
  lemma StepAt(log: seq<Record>, v: View, event: Event, i: nat)
    requires i < |log| && log[i].fate == Unused
    ensures |log| <= |LogStep(log, v, event)| <= |log| + (if event.CancelEvent? then 1 else 0)
    ensures var record := LogStep(log, v, event)[i];
            || record == log[i]
            || (record == log[i].(fate := Used) && event.RegisterEvent? && event.id == log[i].id)
            || (record == log[i].(fate := Displaced) && |LogStep(log, v, event)| - i > MAX_PENDING_CANCELLATIONS)
  {
    if event.CancelEvent? && event.id !in v.active && !HasLive(log, event.id, event.now) {
      var more := log + [Record(event.id, event.now, Unused)];
      DisplacedAt(more, event.now, i);
    }
  }

  lemma PrefixRegisters(events: seq<Event>, id: string)
    requires events != []
    ensures Registers(events[..|events| - 1], id) ==> Registers(events, id)
  {
    var front := events[..|events| - 1];
    assert forall i | 0 <= i < |front| :: front[i] == events[i];
  }

  lemma {:induction false} RecordSurvives(v: View, log: seq<Record>, i: nat, events: seq<Event>)
    requires i < |log| && log[i].fate == Unused && !Registers(events, log[i].id)
    requires |log| - i + Cancels(events) <= MAX_PENDING_CANCELLATIONS
    ensures i < |PlayLog(v, log, events)| <= |log| + Cancels(events)
    ensures PlayLog(v, log, events)[i] == log[i]
  {
    if events != [] {
      var front, last := events[..|events| - 1], events[|events| - 1];
      PrefixRegisters(events, log[i].id);
      RecordSurvives(v, log, i, front);
      StepAt(PlayLog(v, log, front), Play(v, front), last, i);
    }
  }

  function PlayLog(v: View, log: seq<Record>, events: seq<Event>): seq<Record> {
    if events == [] then log
    else
      var front := events[..|events| - 1];
      LogStep(PlayLog(v, log, front), Play(v, front), events[|events| - 1])
  }

  lemma {:induction false} PlayAppend(v: View, a: seq<Event>, b: seq<Event>)
    ensures Play(v, a + b) == Play(Play(v, a), b)
  {
    if b == [] {
      assert a + b == a;
    } else {
      PlayAppend(v, a, b[..|b| - 1]);
      assert (a + b)[..|a + b| - 1] == a + b[..|b| - 1];
    }
  }

  lemma {:induction false} LogAppend(a: seq<Event>, b: seq<Event>)
    ensures LogOf(a + b) == PlayLog(After(a), LogOf(a), b)
  {
    if b == [] {
      assert a + b == a;
    } else {
      var front, last := b[..|b| - 1], b[|b| - 1];
      assert b == front + [last];
      assert a + b == a + front + [last];
      LogAppend(a, front);
      LastEntry(a, front, last);
    }
  }

  lemma LastEntry(a: seq<Event>, b: seq<Event>, event: Event)
    requires LogOf(a + b) == PlayLog(After(a), LogOf(a), b)
    ensures LogOf(a + b + [event]) == PlayLog(After(a), LogOf(a), b + [event])
  {
    PlayAppend(EMPTY, a, b);
    OneMoreEntry(a + b, event);
    assert (b + [event])[..|b|] == b;
  }

  lemma OneMoreEntry(history: seq<Event>, event: Event)
    ensures LogOf(history + [event]) == LogStep(LogOf(history), After(history), event)
  {
    assert (history + [event])[..|history|] == history;
  }

  /**
   A cancellation that arrives before its run, with no other one of that id still waiting, is
   honoured: when the run registers within the limit and fewer than 128 other cancellations
   came in between, it starts out cancelled.
   */
  lemma CancelBeforeRegister(history: seq<Event>, id: string, time: nat, between: seq<Event>, resource: string, now: nat)
    requires Monotonic(history + [CancelEvent(id, time)] + between)
    requires Clock(history + [CancelEvent(id, time)] + between) <= now && now - time < PENDING_CANCELLATION_TTL
    requires id !in After(history).active && !HasLive(LogOf(history), id, time)
    requires !Registers(between, id) && Cancels(between) < MAX_PENDING_CANCELLATIONS
    ensures var outcome := Register(After(history + [CancelEvent(id, time)] + between), id, resource, now).1;
            outcome == Registered(true) || outcome == ResourceBusy
  {
    var start := history + [CancelEvent(id, time)];
    assert start[..|start| - 1] == history;
    var i := |LogOf(history)|;
    FreshRecord(LogOf(history), id, time);
    RecordSurvives(After(start), LogOf(start), i, between);
    LogAppend(start, between);
    PlayAppend(EMPTY, start, between);
    StaysInactive(After(start), id, between);
    LiveRecordCancels(start + between, i, id, resource, now);
  }

  lemma LiveRecordCancels(history: seq<Event>, i: nat, id: string, resource: string, now: nat)
    requires Monotonic(history) && Clock(history) <= now && id !in After(history).active
    requires i < |LogOf(history)| && LogOf(history)[i].id == id && Live(LogOf(history)[i], now)
    ensures var outcome := Register(After(history), id, resource, now).1;
            outcome == Registered(true) || outcome == ResourceBusy
  {
    CancelledExactlyByLiveRecord(history, id, resource, now);
  }

  lemma {:induction false} StaysInactive(v: View, id: string, events: seq<Event>)
    requires id !in v.active && !Registers(events, id)
    ensures id !in Play(v, events).active
  {
    if events != [] {
      var front := events[..|events| - 1];
      PrefixRegisters(events, id);
      StaysInactive(v, id, front);
    }
  }

  /** A repeated cancellation does not renew the one that waits. */
  lemma RepeatedCancelIsNotRenewed(id: string, resource: string)
    ensures var history := [CancelEvent(id, 0), CancelEvent(id, PENDING_CANCELLATION_TTL - 1)];
            Register(After(history), id, resource, PENDING_CANCELLATION_TTL).1 == Registered(false)
  {
    var first, second := CancelEvent(id, 0), CancelEvent(id, PENDING_CANCELLATION_TTL - 1);
    var tomb := Tomb(id, 0);
    assert After([first]) == Step(After([]), first) by {
      assert [first][..0] == [];
    }
    var start := View(map[], map[], [tomb]);
    PruneOneOver([tomb], 0);
    assert After([first]) == start;
    assert [first, second][..1] == [first];
    assert start.pending[0].id == id;
    PruneOneOver([tomb], PENDING_CANCELLATION_TTL - 1);
    assert After([first, second]) == start;
    assert DropExpired([tomb], PENDING_CANCELLATION_TTL) == [] by {
      assert [tomb][1..] == [];
    }
  }
}
