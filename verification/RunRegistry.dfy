/**
 The registry of running agents: two maps that name each other, and a bounded queue of
 cancellations that arrived before their run. Times are milliseconds of a monotonic clock.
 */
module RunRegistry {

  const MAX_PENDING_CANCELLATIONS: nat := 128
  const PENDING_CANCELLATION_TTL: nat := 60_000

  /** A cancellation waiting for its run. */
  datatype Tomb = Tomb(id: string, time: nat)

  datatype Run = Run(resource: string, cancelled: bool)

  /** The registry as a value. */
  datatype View = View(active: map<string, Run>, resources: map<string, string>, pending: seq<Tomb>)

  datatype Registration = Registered(cancelled: bool) | AlreadyRunning | ResourceBusy

  const EMPTY: View := View(map[], map[], [])

  // ---- The operations on values ----

  predicate Young(tomb: Tomb, now: nat) {
    now - tomb.time < PENDING_CANCELLATION_TTL
  }

  function DropExpired(pending: seq<Tomb>, now: nat): seq<Tomb> {
    if pending == [] || Young(pending[0], now) then pending else DropExpired(pending[1..], now)
  }

  function DropExcess(pending: seq<Tomb>): seq<Tomb> {
    if |pending| <= MAX_PENDING_CANCELLATIONS then pending else pending[|pending| - MAX_PENDING_CANCELLATIONS..]
  }

  function Prune(pending: seq<Tomb>, now: nat): seq<Tomb> {
    DropExcess(DropExpired(pending, now))
  }

  /** Pruning never takes an entry of this moment that is put in last. */
  lemma YoungestStays(pending: seq<Tomb>, tomb: Tomb, now: nat)
    requires tomb.time == now
    ensures tomb in Prune(pending + [tomb], now)
  {
    LastStays(pending, tomb, now);
    var rest := DropExpired(pending + [tomb], now);
    assert rest[|rest| - 1] == tomb;
  }

  lemma {:induction false} LastStays(pending: seq<Tomb>, tomb: Tomb, now: nat)
    requires tomb.time == now
    ensures var rest := DropExpired(pending + [tomb], now); rest != [] && rest[|rest| - 1] == tomb
  {
    if pending != [] && !Young(pending[0], now) {
      assert (pending + [tomb])[1..] == pending[1..] + [tomb];
      LastStays(pending[1..], tomb, now);
    }
  }

  predicate Waiting(pending: seq<Tomb>, id: string) {
    exists i | 0 <= i < |pending| :: pending[i].id == id
  }

  function RemoveFirst(pending: seq<Tomb>, id: string): seq<Tomb> {
    if pending == [] then []
    else if pending[0].id == id then pending[1..]
    else [pending[0]] + RemoveFirst(pending[1..], id)
  }

  function Register(v: View, id: string, resource: string, now: nat): (View, Registration) {
    var pruned := v.(pending := Prune(v.pending, now));
    if id in v.active then (pruned, AlreadyRunning)
    else if resource in v.resources then (pruned, ResourceBusy)
    else
      var cancelled := Waiting(pruned.pending, id);
      (View(v.active[id := Run(resource, cancelled)], v.resources[resource := id], RemoveFirst(pruned.pending, id)),
       Registered(cancelled))
  }

  function Cancel(v: View, id: string, now: nat): View {
    var pending := Prune(v.pending, now);
    if id in v.active then View(v.active[id := v.active[id].(cancelled := true)], v.resources, pending)
    else if Waiting(pending, id) then v.(pending := pending)
    else v.(pending := Prune(pending + [Tomb(id, now)], now))
  }

  function Finish(v: View, id: string): View {
    if id !in v.active then v
    else View(v.active - {id}, v.resources - {v.active[id].resource}, v.pending)
  }

  // ---- The registry as the program has it ----

  class Cancellation {
    var flag: bool

    constructor ()
      ensures !flag
    {
      flag := false;
    }

    method Cancel()
      modifies this
      ensures flag
    {
      flag := true;
    }
  }

  datatype ActiveRun = ActiveRun(cancellation: Cancellation, resource: string)

  ghost function RunsOf(active: map<string, ActiveRun>): map<string, Run>
    reads set id | id in active :: active[id].cancellation
  {
    map id | id in active :: Run(active[id].resource, active[id].cancellation.flag)
  }

  lemma OneMoreRun(active: map<string, ActiveRun>, id: string, run: ActiveRun)
    ensures RunsOf(active[id := run]) == RunsOf(active)[id := Run(run.resource, run.cancellation.flag)]
  {
  }

  class ReviewRunRegistry {
    var active: map<string, ActiveRun>
    var activeResources: map<string, string>
    var pending: seq<Tomb>

    /** Runs do not share a cancellation flag. */
    ghost predicate Valid()
      reads this
    {
      forall a, b | a in active && b in active && a != b :: active[a].cancellation != active[b].cancellation
    }

    ghost function Flags(): set<object>
      reads this
    {
      set id | id in active :: active[id].cancellation
    }

    ghost function Value(): View
      reads this, Flags()
    {
      View(RunsOf(active), activeResources, pending)
    }

    constructor ()
      ensures Valid() && Value() == EMPTY
    {
      active, activeResources, pending := map[], map[], [];
    }

    method PrunePending(now: nat)
      modifies this`pending
      ensures pending == Prune(old(pending), now)
    {
      while pending != [] && now - pending[0].time >= PENDING_CANCELLATION_TTL
        invariant DropExpired(pending, now) == DropExpired(old(pending), now)
        decreases |pending|
      {
        pending := pending[1..];
      }
      ghost var young := pending;
      while |pending| > MAX_PENDING_CANCELLATIONS
        invariant |pending| <= |young| && pending == young[|young| - |pending|..]
        invariant |pending| < |young| ==> |pending| >= MAX_PENDING_CANCELLATIONS
        decreases |pending|
      {
        pending := pending[1..];
      }
    }

    method Position(id: string) returns (index: int)
      ensures index < 0 ==> !Waiting(pending, id)
      ensures index >= 0 ==> index < |pending| && Waiting(pending, id)
                             && RemoveFirst(pending, id) == pending[..index] + pending[index + 1..]
    {
      index := 0;
      while index < |pending|
        invariant index <= |pending|
        invariant forall j | 0 <= j < index :: pending[j].id != id
      {
        if pending[index].id == id {
          RemoveFirstAt(pending, id, index);
          return;
        }
        index := index + 1;
      }
      index := -1;
    }

    method TakePending(id: string) returns (found: bool)
      modifies this`pending
      ensures found == Waiting(old(pending), id) && pending == RemoveFirst(old(pending), id)
    {
      var index := Position(id);
      found := index >= 0;
      if found {
        pending := pending[..index] + pending[index + 1..];
      } else {
        NothingToRemove(pending, id);
      }
    }

    method RegisterAt(id: string, resource: string, now: nat) returns (result: Registration, token: Cancellation?)
      requires Valid()
      modifies this
      ensures Valid()
      ensures (Value(), result) == Register(old(Value()), id, resource, now)
      ensures result.AlreadyRunning? <==> id in old(active)
      ensures result.ResourceBusy? <==> id !in old(active) && resource in old(activeResources)
      ensures !result.Registered? ==> active == old(active) && activeResources == old(activeResources)
      ensures result.Registered? ==> token != null && active == old(active)[id := ActiveRun(token, resource)]
                                     && activeResources == old(activeResources)[resource := id]
                                     && result.cancelled == token.flag
      ensures result.Registered? <==> token != null
      ensures token != null ==> fresh(token) && id in active && active[id].cancellation == token
      ensures fresh(Flags() - old(Flags()))
    {
      PrunePending(now);
      assert Value() == old(Value()).(pending := Prune(old(pending), now));
      if id in active {
        return AlreadyRunning, null;
      }
      if resource in activeResources {
        return ResourceBusy, null;
      }
      token := Admit(id, resource);
      result := Registered(token.flag);
    }

    /** Enters the run, taking the cancellation that waits for it. */
    method Admit(id: string, resource: string) returns (token: Cancellation)
      requires Valid() && id !in active
      modifies this
      ensures Valid() && fresh(token) && active == old(active)[id := ActiveRun(token, resource)]
      ensures token.flag == Waiting(old(pending), id)
      ensures Value() == View(old(Value()).active[id := Run(resource, token.flag)], old(activeResources)[resource := id],
                              RemoveFirst(old(pending), id))
    {
      var found := TakePending(id);
      token := NewFlag(found);
      OneMoreRun(active, id, ActiveRun(token, resource));
      active := active[id := ActiveRun(token, resource)];
      activeResources := activeResources[resource := id];
    }

    static method NewFlag(cancelled: bool) returns (token: Cancellation)
      ensures fresh(token) && token.flag == cancelled
    {
      token := new Cancellation();
      if cancelled {
        token.Cancel();
      }
    }

    method CancelActive(id: string)
      requires Valid() && id in active
      modifies active[id].cancellation
      ensures RunsOf(active) == old(RunsOf(active))[id := Run(active[id].resource, true)]
    {
      active[id].cancellation.Cancel();
    }

    method CancelAt(id: string, now: nat)
      requires Valid()
      modifies this, Flags()
      ensures Valid() && Flags() == old(Flags())
      ensures Value() == Cancel(old(Value()), id, now)
      ensures active == old(active) && activeResources == old(activeResources)
      ensures id in active ==> active[id].cancellation.flag
      ensures forall other | other in active && other != id ::
        active[other].cancellation.flag == old(active[other].cancellation.flag)
      ensures id !in active ==> exists t :: t in pending && t.id == id
    {
      PrunePending(now);
      if id in active {
        CancelActive(id);
        return;
      }
      AddPending(id, now);
    }

    method AddPending(id: string, now: nat)
      modifies this`pending
      ensures pending == if Waiting(old(pending), id) then old(pending) else Prune(old(pending) + [Tomb(id, now)], now)
      ensures exists t :: t in pending && t.id == id
    {
      var index := Position(id);
      if index < 0 {
        YoungestStays(pending, Tomb(id, now), now);
        pending := pending + [Tomb(id, now)];
        PrunePending(now);
      }
    }

    method FinishRun(id: string)
      requires Valid()
      modifies this
      ensures Valid() && Flags() <= old(Flags())
      ensures Value() == Finish(old(Value()), id)
      ensures active == old(active) - {id} && pending == old(pending)
      ensures id in old(active) ==> activeResources == old(activeResources) - {old(active)[id].resource}
      ensures id !in old(active) ==> activeResources == old(activeResources)
    {
      if id in active {
        var run := active[id];
        active := active - {id};
        activeResources := activeResources - {run.resource};
      }
    }
  }

  lemma {:induction false} RemoveFirstAt(pending: seq<Tomb>, id: string, k: nat)
    requires k < |pending| && pending[k].id == id && forall j | 0 <= j < k :: pending[j].id != id
    ensures RemoveFirst(pending, id) == pending[..k] + pending[k + 1..]
  {
    if k > 0 {
      RemoveFirstAt(pending[1..], id, k - 1);
      assert pending[..k] == [pending[0]] + pending[1..][..k - 1];
    }
  }

  lemma {:induction false} NothingToRemove(pending: seq<Tomb>, id: string)
    requires !Waiting(pending, id)
    ensures RemoveFirst(pending, id) == pending
  {
    if pending != [] {
      assert pending[0].id != id;
      forall i | 0 <= i < |pending[1..]|
        ensures pending[1..][i].id != id
      {
        assert pending[1..][i] == pending[i + 1];
      }
      NothingToRemove(pending[1..], id);
    }
  }
}
