/**
 The queue of waiting cancellations against a log that never forgets one: each record of the log
 keeps its time and what became of it, and those that are unused, young and not displaced are the
 live ones.

 Pruning the queue, taking an entry out of it and appending one are compared here with what they
 do to the log; `RegistryRuns` carries the comparison through whole runs.
 */
module CancellationLog {
  import opened RunRegistry

  datatype Fate = Unused | Used | Displaced

  datatype Record = Record(id: string, time: nat, fate: Fate)

  // ---- The log ----

  predicate Live(record: Record, now: nat) {
    record.fate == Unused && now - record.time < PENDING_CANCELLATION_TTL
  }

  predicate HasLive(log: seq<Record>, id: string, now: nat) {
    exists i | 0 <= i < |log| :: log[i].id == id && Live(log[i], now)
  }

  function LiveTombs(log: seq<Record>, now: nat): seq<Tomb> {
    if log == [] then []
    else
      var last := log[|log| - 1];
      LiveTombs(log[..|log| - 1], now) + (if Live(last, now) then [Tomb(last.id, last.time)] else [])
  }

  /** The oldest live record is displaced. */
  function Displace(log: seq<Record>, now: nat): seq<Record> {
    if log == [] then []
    else
      var front, last := log[..|log| - 1], log[|log| - 1];
      if LiveTombs(front, now) != [] then Displace(front, now) + [last]
      else if Live(last, now) then front + [last.(fate := Displaced)]
      else log
  }

  /** The live record of `id` is used up. */
  function Use(log: seq<Record>, id: string, now: nat): seq<Record> {
    seq(|log|, i requires 0 <= i < |log| =>
      if log[i].id == id && Live(log[i], now) then log[i].(fate := Used) else log[i])
  }

  function LogCancel(log: seq<Record>, id: string, now: nat): seq<Record> {
    if HasLive(log, id, now) then log
    else
      var more := log + [Record(id, now, Unused)];
      if |LiveTombs(more, now)| > MAX_PENDING_CANCELLATIONS then Displace(more, now) else more
  }

  // ---- The queue ----

  ghost predicate TimeSorted(pending: seq<Tomb>) {
    forall i, j | 0 <= i < j < |pending| :: pending[i].time <= pending[j].time
  }

  ghost predicate NoDuplicates(pending: seq<Tomb>) {
    forall i, j | 0 <= i < j < |pending| :: pending[i].id != pending[j].id
  }

  ghost predicate NoneActive(pending: seq<Tomb>, v: View) {
    forall i | 0 <= i < |pending| :: pending[i].id !in v.active
  }

  ghost predicate AllYoung(pending: seq<Tomb>, now: nat) {
    forall i | 0 <= i < |pending| :: Young(pending[i], now)
  }

  /** What every reachable queue satisfies at clock reading `now`. */
  ghost predicate QueueInvariant(pending: seq<Tomb>, v: View, now: nat) {
    && |pending| <= MAX_PENDING_CANCELLATIONS
    && (forall i, j | 0 <= i < j < |pending| :: pending[i].time <= pending[j].time && pending[i].id != pending[j].id)
    && (forall i | 0 <= i < |pending| ::
          pending[i].id !in v.active && pending[i].time <= now && Young(pending[i], now))
  }

  function Filter(pending: seq<Tomb>, now: nat): seq<Tomb> {
    if pending == [] then []
    else (if Young(pending[0], now) then [pending[0]] else []) + Filter(pending[1..], now)
  }

  lemma Associative(a: seq<Tomb>, b: seq<Tomb>, c: seq<Tomb>)
    ensures a + (b + c) == (a + b) + c
  {
  }

  lemma {:induction false} FilterAppend(a: seq<Tomb>, b: seq<Tomb>, now: nat)
    ensures Filter(a + b, now) == Filter(a, now) + Filter(b, now)
  {
    if a == [] {
      assert a + b == b;
    } else {
      FilterAppend(a[1..], b, now);
      assert (a + b)[1..] == a[1..] + b;
      Associative(if Young(a[0], now) then [a[0]] else [], Filter(a[1..], now), Filter(b, now));
    }
  }

  lemma {:induction false} FilterAllYoung(pending: seq<Tomb>, now: nat)
    requires AllYoung(pending, now)
    ensures Filter(pending, now) == pending
  {
    if pending != [] {
      assert Young(pending[0], now);
      FilterAllYoung(pending[1..], now);
    }
  }

  /** Popping from the front of a time-sorted queue removes every expired entry. */
  lemma {:induction false} DropExpiredFilters(pending: seq<Tomb>, now: nat)
    requires TimeSorted(pending)
    ensures DropExpired(pending, now) == Filter(pending, now)
  {
    if pending != [] {
      if Young(pending[0], now) {
        FilterAllYoung(pending, now);
      } else {
        DropExpiredFilters(pending[1..], now);
      }
    }
  }

  /** What is live later is what was live and is still young. */
  lemma {:induction false} LiveLater(log: seq<Record>, now: nat, later: nat)
    requires now <= later
    ensures Filter(LiveTombs(log, now), later) == LiveTombs(log, later)
  {
    if log != [] {
      var front, last := log[..|log| - 1], log[|log| - 1];
      LiveLater(front, now, later);
      FilterAppend(LiveTombs(front, now), if Live(last, now) then [Tomb(last.id, last.time)] else [], later);
    }
  }

  /** The oldest entries go, the rest stay as they are. */
  lemma {:induction false} DropExpiredIsSuffix(pending: seq<Tomb>, now: nat)
    ensures exists k: nat :: k <= |pending| && DropExpired(pending, now) == pending[k..]
  {
    if pending == [] || Young(pending[0], now) {
      assert DropExpired(pending, now) == pending[0..];
    } else {
      DropExpiredIsSuffix(pending[1..], now);
      var k: nat :| k <= |pending[1..]| && DropExpired(pending[1..], now) == pending[1..][k..];
      assert DropExpired(pending, now) == pending[k + 1..];
    }
  }

  lemma PruneKeepsInvariant(pending: seq<Tomb>, v: View, now: nat, later: nat)
    requires QueueInvariant(pending, v, now) && now <= later
    ensures QueueInvariant(Prune(pending, later), v, later)
    ensures Prune(pending, later) == Filter(pending, later)
  {
    DropExpiredIsSuffix(pending, later);
    DropExpiredFilters(pending, later);
    FilterYoung(pending, later);
  }

  lemma {:induction false} FilterYoung(pending: seq<Tomb>, now: nat)
    ensures AllYoung(Filter(pending, now), now)
  {
    if pending != [] {
      FilterYoung(pending[1..], now);
    }
  }

  lemma {:induction false} WaitingIsLive(log: seq<Record>, id: string, now: nat)
    ensures Waiting(LiveTombs(log, now), id) <==> HasLive(log, id, now)
  {
    if log != [] {
      var front, last := log[..|log| - 1], log[|log| - 1];
      WaitingIsLive(front, id, now);
      var tombs := LiveTombs(front, now);
      if HasLive(log, id, now) && !(last.id == id && Live(last, now)) {
        var i :| 0 <= i < |log| && log[i].id == id && Live(log[i], now);
        assert front[i] == log[i];
      }
      if Waiting(tombs, id) {
        var i :| 0 <= i < |tombs| && tombs[i].id == id;
        assert LiveTombs(log, now)[i] == tombs[i];
      }
      if last.id == id && Live(last, now) {
        assert LiveTombs(log, now)[|tombs|].id == id;
      }
      if Waiting(LiveTombs(log, now), id) && !(last.id == id && Live(last, now)) {
        var i :| 0 <= i < |LiveTombs(log, now)| && LiveTombs(log, now)[i].id == id;
        assert tombs[i].id == id;
      }
      if HasLive(front, id, now) {
        var i :| 0 <= i < |front| && front[i].id == id && Live(front[i], now);
        assert log[i] == front[i];
      }
    }
  }

  lemma {:induction false} RemoveFirstAppend(pending: seq<Tomb>, last: Tomb, id: string)
    ensures RemoveFirst(pending + [last], id)
         == if Waiting(pending, id) then RemoveFirst(pending, id) + [last]
            else if last.id == id then pending
            else pending + [last]
  {
    if pending != [] {
      var all := pending + [last];
      assert all[1..] == pending[1..] + [last];
      RemoveFirstAppend(pending[1..], last, id);
      if pending[0].id != id {
        WaitingInTail(pending, id);
      } else {
        assert Waiting(pending, id);
      }
    } else {
      assert [last][1..] == [];
    }
  }

  lemma WaitingInTail(pending: seq<Tomb>, id: string)
    requires pending != [] && pending[0].id != id
    ensures Waiting(pending, id) <==> Waiting(pending[1..], id)
  {
    if Waiting(pending, id) {
      var i :| 0 <= i < |pending| && pending[i].id == id;
      assert pending[1..][i - 1].id == id;
    }
    if Waiting(pending[1..], id) {
      var i :| 0 <= i < |pending[1..]| && pending[1..][i].id == id;
      assert pending[i + 1].id == id;
    }
  }

  /** Using a record up takes its entry, and no other, out of the queue. */
  lemma {:induction false} UseRemoves(log: seq<Record>, id: string, now: nat)
    requires NoDuplicates(LiveTombs(log, now))
    ensures LiveTombs(Use(log, id, now), now) == RemoveFirst(LiveTombs(log, now), id)
  {
    if log != [] {
      var front, last := log[..|log| - 1], log[|log| - 1];
      var tombs := LiveTombs(front, now);
      assert forall i | 0 <= i < |tombs| :: LiveTombs(log, now)[i] == tombs[i];
      UseRemoves(front, id, now);
      var used := Use(log, id, now);
      var usedLast := used[|log| - 1];
      assert usedLast == if last.id == id && Live(last, now) then last.(fate := Used) else last;
      assert used[..|used| - 1] == Use(front, id, now);
      assert LiveTombs(used, now)
          == LiveTombs(Use(front, id, now), now) + (if Live(usedLast, now) then [Tomb(usedLast.id, usedLast.time)] else []);
      if Live(last, now) {
        var tomb := Tomb(last.id, last.time);
        assert LiveTombs(log, now) == tombs + [tomb];
        RemoveFirstAppend(tombs, tomb, id);
        if last.id == id {
          assert LiveTombs(log, now)[|tombs|].id == id;
          assert !Waiting(tombs, id);
          NothingToRemove(tombs, id);
          assert LiveTombs(used, now) == tombs;
        } else if !Waiting(tombs, id) {
          NothingToRemove(tombs, id);
          assert LiveTombs(used, now) == tombs + [tomb];
        } else {
          assert LiveTombs(used, now) == RemoveFirst(tombs, id) + [tomb];
        }
      } else {
        assert LiveTombs(log, now) == tombs;
      }
    }
  }

  lemma {:induction false} DisplaceDropsOldest(log: seq<Record>, now: nat)
    requires LiveTombs(log, now) != []
    ensures LiveTombs(Displace(log, now), now) == LiveTombs(log, now)[1..]
    ensures |Displace(log, now)| == |log|
  {
    var front, last := log[..|log| - 1], log[|log| - 1];
    var displaced := Displace(log, now);
    if LiveTombs(front, now) != [] {
      DisplaceDropsOldest(front, now);
      assert displaced[..|displaced| - 1] == Displace(front, now);
    } else {
      assert displaced[..|displaced| - 1] == front;
    }
  }

  lemma RemoveAtKeepsOrder(pending: seq<Tomb>, k: nat, v: View, now: nat)
    requires QueueInvariant(pending, v, now) && k < |pending|
    ensures QueueInvariant(pending[..k] + pending[k + 1..], v, now)
    ensures !Waiting(pending[..k] + pending[k + 1..], pending[k].id)
  {
    var rest := pending[..k] + pending[k + 1..];
    assert forall i | 0 <= i < |rest| :: rest[i] == pending[if i < k then i else i + 1];
  }

  /** Admitting a run takes its own entry out of the queue and nothing else. */
  lemma AdmitKeepsInvariant(pending: seq<Tomb>, v: View, id: string, run: Run, now: nat)
    requires QueueInvariant(pending, v, now)
    ensures QueueInvariant(RemoveFirst(pending, id), v.(active := v.active[id := run]), now)
  {
    var rest := RemoveFirst(pending, id);
    if Waiting(pending, id) {
      var k :| 0 <= k < |pending| && pending[k].id == id;
      RemoveFirstAt(pending, id, k);
      RemoveAtKeepsOrder(pending, k, v, now);
    } else {
      NothingToRemove(pending, id);
    }
    assert !Waiting(rest, id);
    NoneActiveBut(rest, v, id, run);
  }

  lemma NoneActiveBut(pending: seq<Tomb>, v: View, id: string, run: Run)
    requires NoneActive(pending, v) && !Waiting(pending, id)
    ensures NoneActive(pending, v.(active := v.active[id := run]))
  {
  }

  lemma AppendKeepsInvariant(pending: seq<Tomb>, v: View, id: string, now: nat)
    requires QueueInvariant(pending, v, now) && id !in v.active && !Waiting(pending, id)
    ensures var more := pending + [Tomb(id, now)];
            && AllYoung(more, now)
            && QueueInvariant(if |more| > MAX_PENDING_CANCELLATIONS then more[1..] else more, v, now)
  {
  }

  /** A queue of young entries only loses its oldest entry when it is one over the limit. */
  lemma PruneOneOver(pending: seq<Tomb>, now: nat)
    requires AllYoung(pending, now) && |pending| <= MAX_PENDING_CANCELLATIONS + 1
    ensures Prune(pending, now) == if |pending| > MAX_PENDING_CANCELLATIONS then pending[1..] else pending
  {
    if pending != [] {
      assert Young(pending[0], now);
    }
  }

  lemma SameQueueInvariant(pending: seq<Tomb>, v: View, w: View, now: nat)
    requires QueueInvariant(pending, v, now) && v.active.Keys == w.active.Keys
    ensures QueueInvariant(pending, w, now)
  {
  }

  /** Only a record with at least 128 younger ones behind it is displaced. */
  lemma {:induction false} DisplacedAt(log: seq<Record>, now: nat, i: nat)
    requires i < |log|
    ensures |Displace(log, now)| == |log|
    ensures Displace(log, now)[i] == log[i]
         || (Displace(log, now)[i] == log[i].(fate := Displaced) && |LiveTombs(log, now)| <= |log| - i)
  {
    var front := log[..|log| - 1];
    DisplaceLength(log, now);
    if LiveTombs(front, now) != [] {
      DisplaceLength(front, now);
      if i < |front| {
        DisplacedAt(front, now, i);
      }
    }
  }

  lemma {:induction false} DisplaceLength(log: seq<Record>, now: nat)
    ensures |Displace(log, now)| == |log|
  {
    if log != [] {
      DisplaceLength(log[..|log| - 1], now);
    }
  }

  /** A new record is the youngest, so it is not the one displaced. */
  lemma FreshRecord(log: seq<Record>, id: string, now: nat)
    requires !HasLive(log, id, now)
    ensures |LogCancel(log, id, now)| == |log| + 1 && LogCancel(log, id, now)[|log|] == Record(id, now, Unused)
  {
    DisplacedAt(log + [Record(id, now, Unused)], now, |log|);
  }
}
