/**
 The write-ahead journal of tool calls: an intent is persisted before its effect, and after a
 crash it is resolved by comparing the file with the digests the intent names. The second part
 checks the mutation receipts against the files.
 */
module ToolJournal {
  import opened GoalStatus
  import opened Options

  datatype Risk = ReadOnly | Write | Destructive | External

  datatype Intent = Intent(executionId: string, toolName: string, risk: Risk, resource: Option<string>,
                           before: Option<string>, after: Option<string>)

  datatype Receipt =
    | Observation(executionId: string)
    | Mutation(executionId: string, resource: string, before: string, after: string)
    | Artifact(executionId: string)
    | Process(executionId: string)

  /** What reading a resource yields; a path outside the repository is unreadable. */
  datatype FileState = Present(digest: string) | Missing | Unreadable

  /** The digest a file has in intents and receipts. */
  function Digest(file: FileState): (digest: Option<string>) {
    match file
    case Present(digest) => Some(digest)
    case Missing => Some("absent")
    case Unreadable => None
  }

  // ---- Classification ----

  datatype Class = Discard | Recovered | Retry | Ambiguous

  /** A write whose file and digests are all known. */
  predicate CompleteWrite(intent: Intent) {
    && intent.risk != ReadOnly
    && (intent.toolName == "filesystem.write" || intent.toolName == "patch.apply")
    && intent.resource.Some? && intent.before.Some? && intent.after.Some?
  }

  /** The class of an intent, unless its file cannot be read. */
  function ClassOf(files: string -> FileState, intent: Intent): Option<Class> {
    if intent.risk == ReadOnly then Some(Discard)
    else if !CompleteWrite(intent) then Some(Ambiguous)
    else
      match Digest(files(intent.resource.value))
      case None => None
      case Some(current) =>
        if current == intent.after.value then Some(Recovered)
        else if current == intent.before.value then Some(Retry)
        else Some(Ambiguous)
  }

  predicate AllClassified(files: string -> FileState, intents: seq<Intent>) {
    forall i | 0 <= i < |intents| :: ClassOf(files, intents[i]).Some?
  }

  /** The intents of one class, in order. */
  function Select(files: string -> FileState, intents: seq<Intent>, wanted: Class): seq<Intent> {
    if intents == [] then []
    else
      var front, last := intents[..|intents| - 1], intents[|intents| - 1];
      Select(files, front, wanted) + (if ClassOf(files, last) == Some(wanted) then [last] else [])
  }

  function Ids(intents: seq<Intent>): seq<string> {
    seq(|intents|, i requires 0 <= i < |intents| => intents[i].executionId)
  }

  function ReceiptFor(intent: Intent): Receipt
    requires CompleteWrite(intent)
  {
    Mutation(intent.executionId, intent.resource.value, intent.before.value, intent.after.value)
  }

  function RecoveredReceipts(files: string -> FileState, intents: seq<Intent>): seq<Receipt> {
    if intents == [] then []
    else
      var front, last := intents[..|intents| - 1], intents[|intents| - 1];
      RecoveredReceipts(files, front) + (if ClassOf(files, last) == Some(Recovered) then [ReceiptFor(last)] else [])
  }

  datatype Recovery = Recovery(recovered: seq<Receipt>, retry: seq<string>, discard: seq<string>, ambiguous: seq<string>)

  function RecoveryOf(files: string -> FileState, intents: seq<Intent>): Recovery {
    Recovery(RecoveredReceipts(files, intents), Ids(Select(files, intents, Retry)), Ids(Select(files, intents, Discard)),
             Ids(Select(files, intents, Ambiguous)))
  }

  lemma RecoveryStep(files: string -> FileState, intents: seq<Intent>, k: nat)
    requires k < |intents| && ClassOf(files, intents[k]).Some?
    ensures var r, id := RecoveryOf(files, intents[..k]), intents[k].executionId;
            RecoveryOf(files, intents[..k + 1])
            == match ClassOf(files, intents[k]).value
               case Discard => r.(discard := r.discard + [id])
               case Retry => r.(retry := r.retry + [id])
               case Ambiguous => r.(ambiguous := r.ambiguous + [id])
               case Recovered => r.(recovered := r.recovered + [ReceiptFor(intents[k])])
  {
    assert intents[..k + 1][..k] == intents[..k];
    var r, id := RecoveryOf(files, intents[..k]), intents[k].executionId;
    var more := RecoveryOf(files, intents[..k + 1]);
    SelectStep(files, intents, k, Discard);
    SelectStep(files, intents, k, Retry);
    SelectStep(files, intents, k, Ambiguous);
  }

  lemma SelectStep(files: string -> FileState, intents: seq<Intent>, k: nat, wanted: Class)
    requires k < |intents|
    ensures Ids(Select(files, intents[..k + 1], wanted))
         == Ids(Select(files, intents[..k], wanted))
            + (if ClassOf(files, intents[k]) == Some(wanted) then [intents[k].executionId] else [])
  {
    assert intents[..k + 1][..k] == intents[..k];
  }

  // ---- The rule, on the fields of an intent ----

  /** A write of one of the two tools that write files, with all that is needed to check it. */
  predicate Checkable(i: Intent) {
    && i.risk != ReadOnly && (i.toolName == "filesystem.write" || i.toolName == "patch.apply")
    && i.resource != None && i.before != None && i.after != None
  }

  predicate Holds(file: FileState, digest: string) {
    file == Present(digest) || (file == Missing && digest == "absent")
  }

  /** The file of the write cannot be read. */
  predicate CannotTell(files: string -> FileState, i: Intent) {
    Checkable(i) && files(i.resource.value) == Unreadable
  }

  /**
   Reads are discarded. A write is recovered if its file is as it leaves it, tried again if the
   file is as it found it, and ambiguous otherwise, as is everything else.
   */
  predicate Falls(files: string -> FileState, i: Intent, wanted: Class) {
    match wanted
    case Discard => i.risk == ReadOnly
    case Recovered => Checkable(i) && Holds(files(i.resource.value), i.after.value)
    case Retry =>
      Checkable(i) && Holds(files(i.resource.value), i.before.value) && !Holds(files(i.resource.value), i.after.value)
    case Ambiguous =>
      && i.risk != ReadOnly
      && (Checkable(i) ==> var file := files(i.resource.value);
                           file != Unreadable && !Holds(file, i.before.value) && !Holds(file, i.after.value))
  }

  lemma ClassExactly(files: string -> FileState, i: Intent, wanted: Class)
    ensures ClassOf(files, i) == Some(wanted) <==> Falls(files, i, wanted)
    ensures ClassOf(files, i) == None <==> CannotTell(files, i)
  {
  }

  ghost predicate FallsIn(files: string -> FileState, intents: seq<Intent>, id: string, wanted: Class) {
    exists i :: i in intents && i.executionId == id && Falls(files, i, wanted)
  }

  /** The lists hold the ids of exactly the intents that fall into their class, and the receipts of the recovered ones. */
  ghost predicate Sorted(files: string -> FileState, intents: seq<Intent>, recovery: Recovery) {
    && (forall id :: id in recovery.discard <==> FallsIn(files, intents, id, Discard))
    && (forall id :: id in recovery.retry <==> FallsIn(files, intents, id, Retry))
    && (forall id :: id in recovery.ambiguous <==> FallsIn(files, intents, id, Ambiguous))
    && (forall r :: r in recovery.recovered <==>
          exists i :: i in intents && Falls(files, i, Recovered)
                      && r == Mutation(i.executionId, i.resource.value, i.before.value, i.after.value))
  }

  lemma UnclassifiedExactly(files: string -> FileState, intents: seq<Intent>)
    ensures AllClassified(files, intents) <==> forall i | i in intents :: !CannotTell(files, i)
  {
    forall i | i in intents
      ensures ClassOf(files, i).None? <==> CannotTell(files, i)
    {
      ClassExactly(files, i, Discard);
    }
  }

  lemma SelectedIds(files: string -> FileState, intents: seq<Intent>, wanted: Class, id: string)
    ensures id in Ids(Select(files, intents, wanted)) <==> FallsIn(files, intents, id, wanted)
  {
    InSelection(files, intents, wanted, id);
    forall i
      ensures ClassOf(files, i) == Some(wanted) <==> Falls(files, i, wanted)
    {
      ClassExactly(files, i, wanted);
    }
  }

  lemma RecoverySorts(files: string -> FileState, intents: seq<Intent>)
    ensures Sorted(files, intents, RecoveryOf(files, intents))
  {
    forall id
      ensures id in RecoveryOf(files, intents).discard <==> FallsIn(files, intents, id, Discard)
      ensures id in RecoveryOf(files, intents).retry <==> FallsIn(files, intents, id, Retry)
      ensures id in RecoveryOf(files, intents).ambiguous <==> FallsIn(files, intents, id, Ambiguous)
    {
      SelectedIds(files, intents, Discard, id);
      SelectedIds(files, intents, Retry, id);
      SelectedIds(files, intents, Ambiguous, id);
    }
    forall r
      ensures r in RecoveredReceipts(files, intents) <==>
        exists i :: i in intents && Falls(files, i, Recovered)
                    && r == Mutation(i.executionId, i.resource.value, i.before.value, i.after.value)
    {
      RecoveredMembers(files, intents, r);
      forall i
        ensures ClassOf(files, i) == Some(Recovered) <==> Falls(files, i, Recovered)
      {
        ClassExactly(files, i, Recovered);
      }
    }
  }

  /** `rootOpen` tells whether the repository itself could be opened. */
  method ClassifyPendingIntents(rootOpen: bool, files: string -> FileState, intents: seq<Intent>)
    returns (result: Option<Recovery>)
    ensures result.None? <==> !rootOpen || !AllClassified(files, intents)
    ensures result.Some? ==> result.value == RecoveryOf(files, intents)
    ensures result.None? <==> !rootOpen || exists i :: i in intents && CannotTell(files, i)
    ensures result.Some? ==> Sorted(files, intents, result.value)
  {
    UnclassifiedExactly(files, intents);
    RecoverySorts(files, intents);
    if !rootOpen {
      return None;
    }
    var recovery := Recovery([], [], [], []);
    for k := 0 to |intents|
      invariant recovery == RecoveryOf(files, intents[..k])
      invariant AllClassified(files, intents[..k])
    {
      var intent := intents[k];
      if intent.risk != ReadOnly && CompleteWrite(intent) && Digest(files(intent.resource.value)).None? {
        assert ClassOf(files, intents[k]).None?;
        return None;
      }
      RecoveryStep(files, intents, k);
      if intent.risk == ReadOnly {
        recovery := recovery.(discard := recovery.discard + [intent.executionId]);
      } else if !CompleteWrite(intent) {
        recovery := recovery.(ambiguous := recovery.ambiguous + [intent.executionId]);
      } else {
        var current := Digest(files(intent.resource.value)).value;
        if current == intent.after.value {
          recovery := recovery.(recovered := recovery.recovered + [ReceiptFor(intent)]);
        } else if current == intent.before.value {
          recovery := recovery.(retry := recovery.retry + [intent.executionId]);
        } else {
          recovery := recovery.(ambiguous := recovery.ambiguous + [intent.executionId]);
        }
      }
    }
    assert intents[..|intents|] == intents;
    result := Some(recovery);
  }

  // ---- What classification promises ----

  /** How often an intent is in the list. */
  function Count(intents: seq<Intent>, i: Intent): nat {
    if intents == [] then 0
    else Count(intents[..|intents| - 1], i) + (if intents[|intents| - 1] == i then 1 else 0)
  }

  lemma CountAppend(front: seq<Intent>, last: Intent, i: Intent)
    ensures Count(front + [last], i) == Count(front, i) + (if last == i then 1 else 0)
  {
    assert (front + [last])[..|front|] == front;
  }

  lemma CountSelected(files: string -> FileState, intents: seq<Intent>, wanted: Class, i: Intent)
    requires intents != []
    ensures var last := intents[|intents| - 1];
            Count(Select(files, intents, wanted), i)
            == Count(Select(files, intents[..|intents| - 1], wanted), i)
               + (if last == i && ClassOf(files, last) == Some(wanted) then 1 else 0)
  {
    var front := Select(files, intents[..|intents| - 1], wanted);
    CountAppend(front, intents[|intents| - 1], i);
    assert front + [] == front;
  }

  /** Each intent goes to exactly one class, as often as it is pending. */
  lemma {:induction false} ClassesPartition(files: string -> FileState, intents: seq<Intent>, i: Intent)
    requires AllClassified(files, intents)
    ensures Count(intents, i)
         == Count(Select(files, intents, Discard), i) + Count(Select(files, intents, Recovered), i)
            + Count(Select(files, intents, Retry), i) + Count(Select(files, intents, Ambiguous), i)
  {
    if intents != [] {
      var front, last := intents[..|intents| - 1], intents[|intents| - 1];
      ClassesPartition(files, front, i);
      assert ClassOf(files, last).Some?;
      CountSelected(files, intents, Discard, i);
      CountSelected(files, intents, Recovered, i);
      CountSelected(files, intents, Retry, i);
      CountSelected(files, intents, Ambiguous, i);
    }
  }

  /** Removes the intents whose id is resolved, keeping the order. */
  function Retain(intents: seq<Intent>, resolved: set<string>): seq<Intent> {
    if intents == [] then []
    else
      var front, last := intents[..|intents| - 1], intents[|intents| - 1];
      Retain(front, resolved) + (if last.executionId in resolved then [] else [last])
  }

  function ReceiptIds(receipts: seq<Receipt>): set<string> {
    set r | r in receipts && !r.Observation? :: r.executionId
  }

  function ResolvedIds(recovery: Recovery): set<string> {
    (set id | id in recovery.discard) + (set id | id in recovery.retry) + ReceiptIds(recovery.recovered)
  }

  /** The ids of intents that are not ambiguous. */
  ghost predicate ResolvedIn(files: string -> FileState, intents: seq<Intent>, id: string) {
    exists i :: i in intents && i.executionId == id && ClassOf(files, i).Some? && ClassOf(files, i) != Some(Ambiguous)
  }

  lemma {:induction false} SelectMembers(files: string -> FileState, intents: seq<Intent>, wanted: Class, i: Intent)
    ensures i in Select(files, intents, wanted) <==> i in intents && ClassOf(files, i) == Some(wanted)
  {
    if intents != [] {
      var front, last := intents[..|intents| - 1], intents[|intents| - 1];
      SelectMembers(files, front, wanted, i);
      assert intents == front + [last];
    }
  }

  lemma IdsMembers(intents: seq<Intent>, id: string)
    ensures id in Ids(intents) <==> exists i :: i in intents && i.executionId == id
  {
    if id in Ids(intents) {
      var k :| 0 <= k < |intents| && Ids(intents)[k] == id;
      assert intents[k] in intents;
    }
    if i :| i in intents && i.executionId == id {
      var k :| 0 <= k < |intents| && intents[k] == i;
      assert Ids(intents)[k] == id;
    }
  }

  lemma {:induction false} RecoveredMembers(files: string -> FileState, intents: seq<Intent>, r: Receipt)
    ensures r in RecoveredReceipts(files, intents)
       <==> exists i :: i in intents && ClassOf(files, i) == Some(Recovered) && r == ReceiptFor(i)
  {
    if intents != [] {
      var front, last := intents[..|intents| - 1], intents[|intents| - 1];
      RecoveredMembers(files, front, r);
      assert intents == front + [last];
    }
  }

  lemma ResolvedExactly(files: string -> FileState, intents: seq<Intent>, id: string)
    ensures id in ResolvedIds(RecoveryOf(files, intents)) <==> ResolvedIn(files, intents, id)
  {
    var recovery := RecoveryOf(files, intents);
    InSelection(files, intents, Discard, id);
    InSelection(files, intents, Retry, id);
    InRecovered(files, intents, id);
    if ResolvedIn(files, intents, id) {
      var i :| i in intents && i.executionId == id && ClassOf(files, i).Some? && ClassOf(files, i) != Some(Ambiguous);
      assert OfClass(files, intents, ClassOf(files, i).value, id);
    }
  }

  ghost predicate OfClass(files: string -> FileState, intents: seq<Intent>, wanted: Class, id: string) {
    exists i :: i in intents && i.executionId == id && ClassOf(files, i) == Some(wanted)
  }

  lemma InSelection(files: string -> FileState, intents: seq<Intent>, wanted: Class, id: string)
    ensures id in Ids(Select(files, intents, wanted)) <==> OfClass(files, intents, wanted, id)
  {
    IdsMembers(Select(files, intents, wanted), id);
    forall i
      ensures i in Select(files, intents, wanted) <==> i in intents && ClassOf(files, i) == Some(wanted)
    {
      SelectMembers(files, intents, wanted, i);
    }
  }

  lemma InRecovered(files: string -> FileState, intents: seq<Intent>, id: string)
    ensures id in ReceiptIds(RecoveredReceipts(files, intents)) <==> OfClass(files, intents, Recovered, id)
  {
    var receipts := RecoveredReceipts(files, intents);
    if id in ReceiptIds(receipts) {
      var r :| r in receipts && !r.Observation? && r.executionId == id;
      RecoveredMembers(files, intents, r);
    }
    if OfClass(files, intents, Recovered, id) {
      var i :| i in intents && i.executionId == id && ClassOf(files, i) == Some(Recovered);
      RecoveredMembers(files, intents, ReceiptFor(i));
      assert ReceiptFor(i) in receipts;
    }
  }

  /** No ambiguous intent has the id of a resolved one. */
  ghost predicate ClassesShareNoId(files: string -> FileState, intents: seq<Intent>) {
    forall i | i in intents && ClassOf(files, i) == Some(Ambiguous) :: !ResolvedIn(files, intents, i.executionId)
  }

  /** The intents left after a reconciliation. */
  function Left(files: string -> FileState, intents: seq<Intent>): seq<Intent> {
    Retain(intents, ResolvedIds(RecoveryOf(files, intents)))
  }

  lemma {:induction false} RetainExactly(files: string -> FileState, intents: seq<Intent>, part: seq<Intent>)
    requires AllClassified(files, intents) && forall i | i in part :: i in intents
    ensures ClassesShareNoIdIn(files, intents, part)
       <==> Retain(part, ResolvedIds(RecoveryOf(files, intents))) == Select(files, part, Ambiguous)
    ensures |Retain(part, ResolvedIds(RecoveryOf(files, intents)))| <= |Select(files, part, Ambiguous)|
  {
    var resolved := ResolvedIds(RecoveryOf(files, intents));
    if part != [] {
      var front, last := part[..|part| - 1], part[|part| - 1];
      RetainExactly(files, intents, front);
      ResolvedExactly(files, intents, last.executionId);
      assert last in intents && part == front + [last];
      assert ClassOf(files, last).Some?;
      AppendSame(Retain(front, resolved), Select(files, front, Ambiguous), last);
      assert Retain(front, resolved) + [] == Retain(front, resolved);
      assert Select(files, front, Ambiguous) + [] == Select(files, front, Ambiguous);
    }
  }

  lemma AppendSame(a: seq<Intent>, b: seq<Intent>, last: Intent)
    ensures a + [last] == b + [last] ==> a == b
  {
    assert (a + [last])[..|a|] == a && (b + [last])[..|b|] == b;
  }

  ghost predicate ClassesShareNoIdIn(files: string -> FileState, intents: seq<Intent>, part: seq<Intent>) {
    forall i | i in part && ClassOf(files, i) == Some(Ambiguous) :: !ResolvedIn(files, intents, i.executionId)
  }

  /**
   A reconciliation leaves exactly the ambiguous intents, in order, exactly when none of them
   has the id of a resolved intent.
   */
  lemma LeavesTheAmbiguous(files: string -> FileState, intents: seq<Intent>)
    requires AllClassified(files, intents)
    ensures Left(files, intents) == Select(files, intents, Ambiguous) <==> ClassesShareNoId(files, intents)
  {
    RetainExactly(files, intents, intents);
  }

  // ---- Receipts against files ----

  predicate Counts(receipt: Receipt, superseded: seq<string>) {
    receipt.Mutation? && receipt.executionId !in superseded
  }

  /** The digest the last receipt that counts leaves a resource with. */
  function LastDigest(receipts: seq<Receipt>, superseded: seq<string>, resource: string): Option<string> {
    if receipts == [] then None
    else
      var last := receipts[|receipts| - 1];
      if Counts(last, superseded) && last.resource == resource then Some(last.after)
      else LastDigest(receipts[..|receipts| - 1], superseded, resource)
  }

  /** For each resource the last receipt that counts names the digest of the file. */
  ghost predicate ReceiptsMatch(receipts: seq<Receipt>, superseded: seq<string>, files: string -> FileState) {
    forall resource | LastDigest(receipts, superseded, resource).Some? ::
      Digest(files(resource)) == LastDigest(receipts, superseded, resource)
  }

  /** Receipt `k` counts and no later one that counts is about its resource. */
  ghost predicate Decisive(receipts: seq<Receipt>, superseded: seq<string>, k: nat) {
    && k < |receipts|
    && Counts(receipts[k], superseded)
    && forall j | k < j < |receipts| && Counts(receipts[j], superseded) :: receipts[j].resource != receipts[k].resource
  }

  ghost predicate Agrees(receipts: seq<Receipt>, k: nat, files: string -> FileState)
    requires k < |receipts| && receipts[k].Mutation?
  {
    Digest(files(receipts[k].resource)) == Some(receipts[k].after)
  }

  lemma {:induction false} DecisiveIsLast(receipts: seq<Receipt>, superseded: seq<string>, k: nat)
    requires Decisive(receipts, superseded, k)
    ensures LastDigest(receipts, superseded, receipts[k].resource) == Some(receipts[k].after)
    decreases |receipts|
  {
    if k < |receipts| - 1 {
      DecisiveIsLast(receipts[..|receipts| - 1], superseded, k);
    }
  }

  lemma {:induction false} LastIsDecisive(receipts: seq<Receipt>, superseded: seq<string>, resource: string) returns (k: nat)
    requires LastDigest(receipts, superseded, resource).Some?
    ensures Decisive(receipts, superseded, k) && receipts[k].resource == resource
    ensures LastDigest(receipts, superseded, resource) == Some(receipts[k].after)
    decreases |receipts|
  {
    var n := |receipts| - 1;
    if Counts(receipts[n], superseded) && receipts[n].resource == resource {
      k := n;
    } else {
      k := LastIsDecisive(receipts[..n], superseded, resource);
    }
  }

  /** The check over receipts and the check over resources say the same. */
  lemma MatchByResource(receipts: seq<Receipt>, superseded: seq<string>, files: string -> FileState)
    ensures ReceiptsMatch(receipts, superseded, files)
       <==> forall k | Decisive(receipts, superseded, k) :: Agrees(receipts, k, files)
  {
    if ReceiptsMatch(receipts, superseded, files) {
      forall k | Decisive(receipts, superseded, k)
        ensures Agrees(receipts, k, files)
      {
        DecisiveIsLast(receipts, superseded, k);
      }
    }
    if forall k | Decisive(receipts, superseded, k) :: Agrees(receipts, k, files) {
      forall resource | LastDigest(receipts, superseded, resource).Some?
        ensures Digest(files(resource)) == LastDigest(receipts, superseded, resource)
      {
        var k := LastIsDecisive(receipts, superseded, resource);
        assert Agrees(receipts, k, files);
      }
    }
  }

  /** Receipt `k` is the one, from the end, that decides the check against the files. */
  ghost predicate FirstProblem(receipts: seq<Receipt>, superseded: seq<string>, files: string -> FileState, k: nat) {
    && Decisive(receipts, superseded, k)
    && !Agrees(receipts, k, files)
    && forall j | j > k && Decisive(receipts, superseded, j) :: Agrees(receipts, j, files)
  }

  /** The resources of receipts from `k` on that count. */
  ghost predicate CheckedFrom(receipts: seq<Receipt>, superseded: seq<string>, k: nat, checked: set<string>)
    requires k <= |receipts|
  {
    forall resource :: resource in checked
      <==> exists j | k <= j < |receipts| :: Counts(receipts[j], superseded) && receipts[j].resource == resource
  }

  /** The reverse scan; it has no answer when the repository or the first file that decides cannot be read. */
  method ReceiptsMatchRepository(rootOpen: bool, receipts: seq<Receipt>, superseded: seq<string>,
                                 files: string -> FileState)
    returns (result: Option<bool>)
    ensures !rootOpen ==> result == None
    ensures rootOpen ==> (result == Some(true) <==> ReceiptsMatch(receipts, superseded, files))
    ensures rootOpen && result != Some(true) ==> exists k: nat ::
      && FirstProblem(receipts, superseded, files, k)
      && (result.None? <==> Digest(files(receipts[k].resource)).None?)
  {
    if !rootOpen {
      return None;
    }
    var checked: set<string> := {};
    MatchByResource(receipts, superseded, files);
    for k := |receipts| downto 0
      invariant CheckedFrom(receipts, superseded, k, checked)
      invariant forall j | j >= k && Decisive(receipts, superseded, j) :: Agrees(receipts, j, files)
    {
      var receipt := receipts[k];
      if !receipt.Mutation? {
        continue;
      }
      if receipt.executionId in superseded {
        continue;
      }
      if receipt.resource in checked {
        continue;
      }
      checked := checked + {receipt.resource};
      var current := Digest(files(receipt.resource));
      if current.None? {
        assert FirstProblem(receipts, superseded, files, k);
        return None;
      }
      if current.value != receipt.after {
        assert FirstProblem(receipts, superseded, files, k);
        return Some(false);
      }
    }
    result := Some(true);
  }

  // ---- Superseding after a workspace conflict ----

  function SupersedeAll(receipts: seq<Receipt>, superseded: seq<string>): seq<string> {
    if receipts == [] then superseded
    else
      var sofar := SupersedeAll(receipts[..|receipts| - 1], superseded);
      var last := receipts[|receipts| - 1];
      if last.Mutation? && last.executionId !in sofar then sofar + [last.executionId] else sofar
  }

  ghost predicate NoRepeats(ids: seq<string>) {
    forall i, j | 0 <= i < j < |ids| :: ids[i] != ids[j]
  }

  /** Every mutation is superseded, nothing else is added, and nothing is added twice. */
  lemma {:induction false} SupersedesEachOnce(receipts: seq<Receipt>, superseded: seq<string>, id: string)
    ensures superseded <= SupersedeAll(receipts, superseded)
    ensures id in SupersedeAll(receipts, superseded)
       <==> id in superseded || exists r :: r in receipts && r.Mutation? && r.executionId == id
    ensures NoRepeats(superseded) ==> NoRepeats(SupersedeAll(receipts, superseded))
  {
    if receipts != [] {
      var front, last := receipts[..|receipts| - 1], receipts[|receipts| - 1];
      SupersedesEachOnce(front, superseded, id);
      assert receipts == front + [last];
    }
  }

  lemma {:induction false} NoLastDigest(receipts: seq<Receipt>, superseded: seq<string>, resource: string)
    requires forall r | r in receipts && r.Mutation? :: r.executionId in superseded
    ensures LastDigest(receipts, superseded, resource) == None
  {
    if receipts != [] {
      var front, last := receipts[..|receipts| - 1], receipts[|receipts| - 1];
      assert receipts == front + [last];
      NoLastDigest(front, superseded, resource);
    }
  }

  /** Resuming from a workspace conflict makes the check succeed whatever the files are. */
  lemma SupersededMatchesAnything(receipts: seq<Receipt>, superseded: seq<string>, files: string -> FileState)
    ensures ReceiptsMatch(receipts, SupersedeAll(receipts, superseded), files)
  {
    var all := SupersedeAll(receipts, superseded);
    forall r | r in receipts && r.Mutation?
      ensures r.executionId in all
    {
      SupersedesEachOnce(receipts, superseded, r.executionId);
    }
    forall resource
      ensures LastDigest(receipts, all, resource).None?
    {
      NoLastDigest(receipts, all, resource);
    }
  }

  lemma OneMoreReceipt(receipts: seq<Receipt>, superseded: seq<string>, more: Receipt, resource: string)
    ensures LastDigest(receipts + [more], superseded, resource)
         == if Counts(more, superseded) && more.resource == resource then Some(more.after)
            else LastDigest(receipts, superseded, resource)
  {
    assert (receipts + [more])[..|receipts|] == receipts;
  }

  // ---- The journal part of a goal ----

  /** What the journal tells the model in the transcript. */
  datatype Notice = RetryNotice | WorkspaceNotice

  datatype Journal = Journal(status: Status, pauseReason: Option<PauseReason>, blockReason: Option<BlockReason>,
                             pending: seq<Intent>, receipts: seq<Receipt>, superseded: seq<string>, notices: seq<Notice>)

  /** Only these goals are reconciled. */
  predicate Recoverable(j: Journal) {
    || (j.status.Paused? && j.pauseReason == Some(AppRestarted))
    || (j.status.Blocked? && j.blockReason == Some(AmbiguousToolEffect))
  }

  /** What a reconciliation is going to change, worked out on the journal as it was read. */
  datatype Findings = Findings(resolved: set<string>, recovered: seq<Receipt>, ambiguous: bool, retry: bool,
                               unblocks: bool)

  /** The findings on a journal whose files that matter can be read, if there is anything to change. */
  function FindingsOf(seen: Journal, files: string -> FileState): Option<Findings> {
    if !Recoverable(seen) then None
    else if seen.pending == [] then
      if seen.status.Blocked? then Some(Findings({}, [], false, false, true)) else None
    else
      var recovery := RecoveryOf(files, seen.pending);
      Some(Findings(ResolvedIds(recovery), recovery.recovered, recovery.ambiguous != [], recovery.retry != [],
                    seen.status.Blocked?))
  }

  /** What the findings say, and when there are any. */
  lemma FindingsExactly(seen: Journal, files: string -> FileState)
    ensures FindingsOf(seen, files).Some?
       <==> || (seen.status == Paused && seen.pauseReason == Some(AppRestarted) && seen.pending != [])
            || (seen.status == Blocked && seen.blockReason == Some(AmbiguousToolEffect))
    ensures FindingsOf(seen, files).Some? ==>
      var f := FindingsOf(seen, files).value;
      && (forall id :: id in f.resolved <==> exists wanted: Class :: wanted != Ambiguous && FallsIn(files, seen.pending, id, wanted))
      && (forall r :: r in f.recovered <==>
            exists i :: i in seen.pending && Falls(files, i, Recovered)
                        && r == Mutation(i.executionId, i.resource.value, i.before.value, i.after.value))
      && (f.ambiguous <==> exists i :: i in seen.pending && Falls(files, i, Ambiguous))
      && (f.retry <==> exists i :: i in seen.pending && Falls(files, i, Retry))
      && (f.unblocks <==> seen.status == Blocked)
  {
    RecoverySorts(files, seen.pending);
    SelectedExactly(files, seen.pending, Ambiguous);
    SelectedExactly(files, seen.pending, Retry);
    forall id
      ensures id in ResolvedIds(RecoveryOf(files, seen.pending))
         <==> exists wanted: Class :: wanted != Ambiguous && FallsIn(files, seen.pending, id, wanted)
    {
      ResolvedByClass(files, seen.pending, id);
    }
  }

  lemma ResolvedByClass(files: string -> FileState, intents: seq<Intent>, id: string)
    ensures id in ResolvedIds(RecoveryOf(files, intents))
       <==> exists wanted: Class :: wanted != Ambiguous && FallsIn(files, intents, id, wanted)
  {
    ResolvedExactly(files, intents, id);
    if ResolvedIn(files, intents, id) {
      var i :| i in intents && i.executionId == id && ClassOf(files, i).Some? && ClassOf(files, i) != Some(Ambiguous);
      ClassExactly(files, i, ClassOf(files, i).value);
      assert FallsIn(files, intents, id, ClassOf(files, i).value);
    }
    if wanted: Class :| wanted != Ambiguous && FallsIn(files, intents, id, wanted) {
      var i :| i in intents && i.executionId == id && Falls(files, i, wanted);
      ClassExactly(files, i, wanted);
    }
  }

  lemma SelectedExactly(files: string -> FileState, intents: seq<Intent>, wanted: Class)
    ensures Select(files, intents, wanted) != [] <==> exists i :: i in intents && Falls(files, i, wanted)
  {
    forall i
      ensures i in Select(files, intents, wanted) <==> i in intents && Falls(files, i, wanted)
    {
      SelectMembers(files, intents, wanted, i);
      ClassExactly(files, i, wanted);
    }
    if Select(files, intents, wanted) != [] {
      assert Select(files, intents, wanted)[0] in Select(files, intents, wanted);
    }
  }

  /** The journal after the findings were stored, whatever it was by then. */
  function Applied(j: Journal, found: Findings): Journal {
    var resolved := j.(pending := Retain(j.pending, found.resolved), receipts := j.receipts + found.recovered);
    if found.ambiguous then
      resolved.(status := Blocked, pauseReason := None, blockReason := Some(AmbiguousToolEffect))
    else
      var unblocked :=
        if found.unblocks then resolved.(status := Paused, pauseReason := Some(UserPause), blockReason := None)
        else resolved;
      if found.retry then unblocked.(notices := j.notices + [RetryNotice]) else unblocked
  }

  /** The journal after a reconciliation that nothing interferes with. */
  function Reconciled(j: Journal, files: string -> FileState): Journal {
    match FindingsOf(j, files)
    case None => j
    case Some(found) => Applied(j, found)
  }

  /** The answer of a reconciliation: the goal may go on. */
  function Clean(j: Journal, files: string -> FileState): bool {
    !Recoverable(j) || Select(files, j.pending, Ambiguous) == []
  }

  lemma {:induction false} NothingRetained(intents: seq<Intent>)
    ensures Retain(intents, {}) == intents
  {
    if intents != [] {
      NothingRetained(intents[..|intents| - 1]);
    }
  }

  class GoalJournal {
    var status: Status
    var pauseReason: Option<PauseReason>
    var blockReason: Option<BlockReason>
    var pendingIntents: seq<Intent>
    var receipts: seq<Receipt>
    var superseded: seq<string>
    var notices: seq<Notice>

    function Value(): Journal
      reads this
    {
      Journal(status, pauseReason, blockReason, pendingIntents, receipts, superseded, notices)
    }

    constructor (j: Journal)
      ensures Value() == j
    {
      status, pauseReason, blockReason := j.status, j.pauseReason, j.blockReason;
      pendingIntents, receipts, superseded, notices := j.pending, j.receipts, j.superseded, j.notices;
    }

    method RecordIntent(intent: Intent) returns (ok: bool)
      modifies this
      ensures ok <==> !Terminal(old(status))
      ensures Value() == if ok then old(Value()).(pending := old(pendingIntents) + [intent]) else old(Value())
    {
      if Terminal(status) {
        return false;
      }
      pendingIntents := pendingIntents + [intent];
      ok := true;
    }

    method RetainOthers(resolved: set<string>)
      modifies this`pendingIntents
      ensures pendingIntents == Retain(old(pendingIntents), resolved)
      ensures forall p :: p in pendingIntents <==> p in old(pendingIntents) && p.executionId !in resolved
    {
      var kept: seq<Intent> := [];
      for k := 0 to |pendingIntents|
        invariant kept == Retain(pendingIntents[..k], resolved)
        invariant pendingIntents == old(pendingIntents)
      {
        assert pendingIntents[..k + 1][..k] == pendingIntents[..k];
        if pendingIntents[k].executionId !in resolved {
          kept := kept + [pendingIntents[k]];
        }
      }
      assert pendingIntents[..|pendingIntents|] == pendingIntents;
      forall p
        ensures p in Retain(pendingIntents, resolved) <==> p in pendingIntents && p.executionId !in resolved
      {
        RetainMember(pendingIntents, resolved, p);
      }
      pendingIntents := kept;
    }

    method RecordReceipt(id: string, receipt: Receipt) returns (ok: bool)
      modifies this
      ensures ok <==> !Terminal(old(status))
      ensures Value() == if ok
                         then old(Value()).(pending := Retain(old(pendingIntents), {id}), receipts := old(receipts) + [receipt])
                         else old(Value())
    {
      if Terminal(status) {
        return false;
      }
      RetainOthers({id});
      receipts := receipts + [receipt];
      ok := true;
    }

    method RecordNoEffect(id: string) returns (ok: bool)
      modifies this
      ensures ok <==> !Terminal(old(status))
      ensures Value() == if ok then old(Value()).(pending := Retain(old(pendingIntents), {id})) else old(Value())
    {
      if Terminal(status) {
        return false;
      }
      RetainOthers({id});
      ok := true;
    }

    /**
     `seen` is the goal as it was read; others may have changed it since. The answer is `None`
     when the repository or a file cannot be read; then nothing changes.
     */
    method ReconcilePending(seen: Journal, rootOpen: bool, files: string -> FileState) returns (clean: Option<bool>)
      modifies this
      ensures clean.None? <==>
        Recoverable(seen) && seen.pending != [] && (!rootOpen || !AllClassified(files, seen.pending))
      ensures Value() == if clean.None? || FindingsOf(seen, files).None? then old(Value())
                         else Applied(old(Value()), FindingsOf(seen, files).value)
      ensures clean.Some? ==> clean.value == Clean(seen, files)
      ensures clean.None? || FindingsOf(seen, files).None? ==> Value() == old(Value())
      ensures clean.Some? && FindingsOf(seen, files).Some? ==>
        var f := FindingsOf(seen, files).value;
        && clean.value == !f.ambiguous
        && receipts == old(receipts) + f.recovered && superseded == old(superseded)
        && notices == old(notices) + (if f.retry && !f.ambiguous then [RetryNotice] else [])
        && (if f.ambiguous then status == Blocked && pauseReason == None && blockReason == Some(AmbiguousToolEffect)
            else if f.unblocks then status == Paused && pauseReason == Some(UserPause) && blockReason == None
            else status == old(status) && pauseReason == old(pauseReason) && blockReason == old(blockReason))
    {
      var restart := seen.status.Paused? && seen.pauseReason == Some(AppRestarted);
      var ambiguity := seen.status.Blocked? && seen.blockReason == Some(AmbiguousToolEffect);
      if !restart && !ambiguity {
        return Some(true);
      }
      if seen.pending == [] {
        if ambiguity {
          NothingRetained(pendingIntents);
          assert receipts + [] == receipts;
          status, pauseReason, blockReason := Paused, Some(UserPause), None;
        }
        return Some(true);
      }
      var recovery := ClassifyPendingIntents(rootOpen, files, seen.pending);
      if recovery.None? {
        return None;
      }
      var found := recovery.value;
      RetainOthers(ResolvedIds(found));
      receipts := receipts + found.recovered;
      if found.ambiguous != [] {
        status, pauseReason, blockReason := Blocked, None, Some(AmbiguousToolEffect);
        return Some(false);
      }
      if ambiguity {
        status, pauseReason, blockReason := Paused, Some(UserPause), None;
      }
      if found.retry != [] {
        notices := notices + [RetryNotice];
      }
      clean := Some(true);
    }

    /** The part of a resume that accepts an externally changed workspace. */
    method SupersedeMutations()
      modifies this`superseded, this`notices
      ensures superseded == SupersedeAll(receipts, old(superseded)) && notices == old(notices) + [WorkspaceNotice]
    {
      for k := 0 to |receipts|
        invariant superseded == SupersedeAll(receipts[..k], old(superseded)) && notices == old(notices)
      {
        assert receipts[..k + 1][..k] == receipts[..k];
        if receipts[k].Mutation? && receipts[k].executionId !in superseded {
          superseded := superseded + [receipts[k].executionId];
        }
      }
      assert receipts[..|receipts|] == receipts;
      notices := notices + [WorkspaceNotice];
    }
  }

  // ---- What a reconciliation promises ----

  ghost predicate DistinctIds(intents: seq<Intent>) {
    forall i, j | 0 <= i < j < |intents| :: intents[i].executionId != intents[j].executionId
  }

  lemma DistinctIdsShareNone(files: string -> FileState, intents: seq<Intent>)
    requires DistinctIds(intents)
    ensures ClassesShareNoId(files, intents)
  {
  }

  /** Ambiguous intents were found, and each of them had the id of a resolved one. */
  ghost predicate Vanished(files: string -> FileState, intents: seq<Intent>) {
    Select(files, intents, Ambiguous) != [] && Left(files, intents) == []
  }

  lemma DistinctIdsNeverVanish(files: string -> FileState, intents: seq<Intent>)
    requires AllClassified(files, intents) && DistinctIds(intents)
    ensures Left(files, intents) == Select(files, intents, Ambiguous) && !Vanished(files, intents)
  {
    DistinctIdsShareNone(files, intents);
    LeavesTheAmbiguous(files, intents);
  }

  /**
   A reconciliation adds exactly the receipts of the recovered intents and answers yes exactly
   when none is ambiguous; that is when nothing is pending, unless ambiguous intents vanished.
   */
  lemma ReconciliationResolves(j: Journal, files: string -> FileState)
    requires Recoverable(j) && AllClassified(files, j.pending)
    ensures var after := Reconciled(j, files);
            && after.pending == Left(files, j.pending)
            && after.receipts == j.receipts + RecoveredReceipts(files, j.pending)
            && ((Clean(j, files) <==> after.pending == []) <==> !Vanished(files, j.pending))
            && (Clean(j, files) ==> after.status.Paused?)
            && (!Clean(j, files) ==> after.status.Blocked? && after.blockReason == Some(AmbiguousToolEffect))
  {
    RetainExactly(files, j.pending, j.pending);
    if j.pending == [] {
      assert j.receipts + RecoveredReceipts(files, j.pending) == j.receipts;
    }
  }

  lemma {:induction false} RetainMember(intents: seq<Intent>, resolved: set<string>, i: Intent)
    ensures i in Retain(intents, resolved) <==> i in intents && i.executionId !in resolved
  {
    if intents != [] {
      var front, last := intents[..|intents| - 1], intents[|intents| - 1];
      RetainMember(front, resolved, i);
      assert intents == front + [last];
    }
  }

  /** Whatever is left is ambiguous, because every other intent resolves its own id. */
  lemma LeftIsAmbiguous(files: string -> FileState, intents: seq<Intent>, i: Intent)
    requires AllClassified(files, intents) && i in Left(files, intents)
    ensures ClassOf(files, i) == Some(Ambiguous)
  {
    RetainMember(intents, ResolvedIds(RecoveryOf(files, intents)), i);
    ResolvedExactly(files, intents, i.executionId);
    assert i in intents;
  }

  lemma {:induction false} AllAmbiguousStay(files: string -> FileState, intents: seq<Intent>, part: seq<Intent>)
    requires forall i | i in intents :: ClassOf(files, i) == Some(Ambiguous)
    requires forall i | i in part :: i in intents
    ensures Select(files, part, Ambiguous) == part && RecoveredReceipts(files, part) == []
    ensures Retain(part, ResolvedIds(RecoveryOf(files, intents))) == part
  {
    if part != [] {
      var front, last := part[..|part| - 1], part[|part| - 1];
      assert part == front + [last];
      AllAmbiguousStay(files, intents, front);
      ResolvedExactly(files, intents, last.executionId);
      assert last in intents;
    }
  }

  lemma LeftStays(files: string -> FileState, intents: seq<Intent>)
    requires AllClassified(files, intents)
    ensures var left := Left(files, intents);
            Left(files, left) == left && RecoveredReceipts(files, left) == [] && Select(files, left, Ambiguous) == left
  {
    var left := Left(files, intents);
    forall i | i in left
      ensures ClassOf(files, i) == Some(Ambiguous)
    {
      LeftIsAmbiguous(files, intents, i);
    }
    AllAmbiguousStay(files, left, left);
  }

  lemma NoneRetried(files: string -> FileState, intents: seq<Intent>)
    requires intents != [] && Select(files, intents, Ambiguous) == intents
    ensures RecoveryOf(files, intents).ambiguous != []
  {
  }

  /**
   Reconciling again on unchanged files adds no receipt and removes no intent; it changes
   nothing at all exactly when no ambiguous intents vanished the first time.
   */
  lemma ReconcilingAgainChangesNothing(j: Journal, files: string -> FileState)
    requires Recoverable(j) && AllClassified(files, j.pending)
    ensures var once := Reconciled(j, files);
            && Reconciled(once, files).pending == once.pending
            && Reconciled(once, files).receipts == once.receipts
            && (Reconciled(once, files) == once <==> !Vanished(files, j.pending))
  {
    ReconciliationResolves(j, files);
    LeftStays(files, j.pending);
    var once := Reconciled(j, files);
    if once.pending != [] {
      NoneRetried(files, once.pending);
      assert once.receipts + [] == once.receipts;
    }
  }

  /** Two writes of one id, the first of them overwritten and the second recovered: the goal blocks on nothing. */
  lemma VanishingHappens()
    ensures var files := (resource: string) => Present(if resource == "a" then "other" else "new");
            var first := Intent("id", "filesystem.write", Write, Some("a"), Some("old"), Some("new"));
            var second := Intent("id", "filesystem.write", Write, Some("b"), Some("old"), Some("new"));
            AllClassified(files, [first, second]) && Vanished(files, [first, second])
  {
    var files := (resource: string) => Present(if resource == "a" then "other" else "new");
    var first := Intent("id", "filesystem.write", Write, Some("a"), Some("old"), Some("new"));
    var second := Intent("id", "filesystem.write", Write, Some("b"), Some("old"), Some("new"));
    var intents := [first, second];
    assert "a"[0] == 'a' && "b"[0] == 'b';
    assert |"other"| == 5 && |"new"| == |"old"| == 3;
    assert ClassOf(files, first) == Some(Ambiguous);
    assert ClassOf(files, second) == Some(Recovered);
    assert AllClassified(files, intents);
    SelectMembers(files, intents, Ambiguous, first);
    assert first in intents && second in intents;
    ResolvedExactly(files, intents, "id");
    if Left(files, intents) != [] {
      var i := Left(files, intents)[0];
      assert i in Left(files, intents);
      RetainMember(intents, ResolvedIds(RecoveryOf(files, intents)), i);
    }
  }
}
