/**
 Steering messages: a user adds them at any time, the runner copies the ones it has not seen
 yet into the transcript when it takes the goal up, and finishing the goal empties them all.
 */
module Steering {
  import opened Options

  datatype Message = Message(content: string, injected: bool)

  /** How a goal notices that it repeats itself. */
  datatype Progress = Progress(lastDigest: Option<string>, repeats: nat, recovered: bool)

  function NoProgress(): Progress {
    Progress(None, 0, false)
  }

  function Waiting(messages: seq<Message>): seq<string> {
    if messages == [] then []
    else
      var last := messages[|messages| - 1];
      Waiting(messages[..|messages| - 1]) + (if last.injected then [] else [last.content])
  }

  function Seen(messages: seq<Message>): seq<Message> {
    seq(|messages|, i requires 0 <= i < |messages| => messages[i].(injected := true))
  }

  function Emptied(messages: seq<Message>): seq<Message> {
    seq(|messages|, i requires 0 <= i < |messages| => Message("", true))
  }

  /** What the model reads of each message. */
  function Headed(contents: seq<string>): (texts: seq<string>)
    ensures |texts| == |contents|
    ensures forall i | 0 <= i < |contents| :: texts[i] == "Steering from the user for the same Goal: " + contents[i]
  {
    seq(|contents|, i requires 0 <= i < |contents| => "Steering from the user for the same Goal: " + contents[i])
  }

  class SteeringBox {
    var messages: seq<Message>
    var transcript: seq<string>
    var progress: Progress

    constructor ()
      ensures messages == [] && transcript == [] && progress == NoProgress()
    {
      messages, transcript, progress := [], [], NoProgress();
    }

    method Steer(content: string)
      modifies this`messages
      ensures messages == old(messages) + [Message(content, false)]
    {
      messages := messages + [Message(content, false)];
    }

    /** Marks every message and appends the new ones, in order; new ones start the progress over. */
    method InjectSteering() returns (pending: seq<string>)
      modifies this
      ensures pending == Waiting(old(messages)) && messages == Seen(old(messages))
      ensures transcript == old(transcript) + Headed(pending)
      ensures progress == if pending == [] then old(progress) else Progress(None, 0, false)
    {
      pending := [];
      var marked: seq<Message> := [];
      for k := 0 to |messages|
        invariant messages == old(messages) && transcript == old(transcript) && progress == old(progress)
        invariant pending == Waiting(messages[..k]) && marked == Seen(messages[..k])
      {
        assert messages[..k + 1][..k] == messages[..k];
        if !messages[k].injected {
          pending := pending + [messages[k].content];
        }
        marked := marked + [messages[k].(injected := true)];
      }
      assert messages[..|messages|] == messages;
      messages := marked;
      if pending != [] {
        progress := NoProgress();
      }
      AppendHeaded(pending);
    }

    /** Finishing the goal empties the transcript and every message, seen or not. */
    method ClearWorkingData()
      modifies this`messages, this`transcript
      ensures messages == Emptied(old(messages)) && transcript == []
      ensures |messages| == |old(messages)| && forall m | m in messages :: m.content == "" && m.injected
    {
      transcript := [];
      var emptied: seq<Message> := [];
      for k := 0 to |messages|
        invariant messages == old(messages) && emptied == Emptied(messages[..k])
      {
        emptied := emptied + [Message("", true)];
      }
      assert messages[..|messages|] == messages;
      messages := emptied;
    }

    method AppendHeaded(contents: seq<string>)
      modifies this`transcript
      ensures transcript == old(transcript) + Headed(contents)
    {
      for k := 0 to |contents|
        invariant transcript == old(transcript) + Headed(contents[..k])
      {
        var text := "Steering from the user for the same Goal: " + contents[k];
        assert Headed(contents[..k + 1]) == Headed(contents[..k]) + [text];
        transcript := transcript + [text];
      }
      assert contents[..|contents|] == contents;
    }
  }

  // ---- Runs ----

  datatype Event = Steers(content: string) | Injects | Clears

  function Messages(history: seq<Event>): seq<Message> {
    if history == [] then []
    else
      var front, last := history[..|history| - 1], history[|history| - 1];
      match last
      case Steers(content) => Messages(front) + [Message(content, false)]
      case Injects => Seen(Messages(front))
      case Clears => Emptied(Messages(front))
  }

  /** The texts the user gave, in order. */
  function Given(history: seq<Event>): seq<string> {
    if history == [] then []
    else
      var front, last := history[..|history| - 1], history[|history| - 1];
      Given(front) + (if last.Steers? then [last.content] else [])
  }

  /** Everything that was copied into the transcript over the run, in order. */
  function Delivered(history: seq<Event>): seq<string> {
    if history == [] then []
    else
      var front, last := history[..|history| - 1], history[|history| - 1];
      Delivered(front) + (if last.Injects? then Waiting(Messages(front)) else [])
  }

  function WaitingNumbers(messages: seq<Message>): seq<nat> {
    if messages == [] then []
    else
      var n := |messages| - 1;
      WaitingNumbers(messages[..n]) + (if messages[n].injected then [] else [n])
  }

  /** Which messages these were. */
  function DeliveredNumbers(history: seq<Event>): seq<nat> {
    if history == [] then []
    else
      var front, last := history[..|history| - 1], history[|history| - 1];
      DeliveredNumbers(front) + (if last.Injects? then WaitingNumbers(Messages(front)) else [])
  }

  /** The box goes through the states of the run. */
  method Replay(history: seq<Event>) returns (box: SteeringBox)
    ensures fresh(box) && box.messages == Messages(history)
  {
    box := new SteeringBox();
    for k := 0 to |history|
      invariant fresh(box) && box.messages == Messages(history[..k])
    {
      assert history[..k + 1][..k] == history[..k];
      match history[k]
      case Steers(content) => box.Steer(content);
      case Injects => var _ := box.InjectSteering();
      case Clears => box.ClearWorkingData();
    }
    assert history[..|history|] == history;
  }

  // ---- What becomes of a message ----

  predicate WaitsAt(history: seq<Event>, n: nat) {
    n < |Messages(history)| && !Messages(history)[n].injected
  }

  /** Message `n` was waiting when event `k` cleared the goal. */
  predicate DroppedAt(history: seq<Event>, k: nat, n: nat) {
    k < |history| && history[k].Clears? && WaitsAt(history[..k], n)
  }

  ghost predicate Dropped(history: seq<Event>, n: nat) {
    exists k: nat :: DroppedAt(history, k, n)
  }

  ghost predicate Increasing(numbers: seq<nat>) {
    forall i, j | 0 <= i < j < |numbers| :: numbers[i] < numbers[j]
  }

  function Selected(texts: seq<string>, numbers: seq<nat>): seq<string>
    requires forall i | 0 <= i < |numbers| :: numbers[i] < |texts|
  {
    seq(|numbers|, i requires 0 <= i < |numbers| => texts[numbers[i]])
  }

  /** How many messages there were at the last event that marked them. */
  function Marked(history: seq<Event>): nat {
    if history == [] then 0
    else
      var front, last := history[..|history| - 1], history[|history| - 1];
      if last.Steers? then Marked(front) else |Messages(front)|
  }

  /** The messages from `k` on wait, with the texts they were given. */
  ghost predicate WaitFrom(messages: seq<Message>, texts: seq<string>, k: nat) {
    && k <= |messages| == |texts|
    && forall i | 0 <= i < |messages| :: (messages[i].injected <==> i < k) && (k <= i ==> messages[i].content == texts[i])
  }

  lemma {:induction false} MessagesWaitFrom(history: seq<Event>)
    ensures WaitFrom(Messages(history), Given(history), Marked(history))
  {
    if history != [] {
      MessagesWaitFrom(history[..|history| - 1]);
    }
  }

  function Numbers(k: nat, n: nat): seq<nat>
    requires k <= n
  {
    seq(n - k, i requires 0 <= i < n - k => k + i)
  }

  lemma {:induction false} TheRestWaits(messages: seq<Message>, texts: seq<string>, k: nat, n: nat)
    requires WaitFrom(messages, texts, k) && n <= |messages|
    ensures WaitingNumbers(messages[..n]) == Numbers(if k <= n then k else n, n)
    ensures Waiting(messages[..n]) == Selected(texts, WaitingNumbers(messages[..n]))
  {
    if n > 0 {
      assert messages[..n][..n - 1] == messages[..n - 1];
      TheRestWaits(messages, texts, k, n - 1);
    }
  }

  lemma SelectedAppend(texts: seq<string>, more: seq<string>, a: seq<nat>, b: seq<nat>)
    requires forall i | 0 <= i < |a| :: a[i] < |texts|
    requires forall i | 0 <= i < |b| :: b[i] < |texts + more|
    ensures Selected(texts + more, a + b) == Selected(texts, a) + Selected(texts + more, b)
  {
  }

  lemma DroppedLater(history: seq<Event>, n: nat)
    requires history != []
    ensures var front, last := history[..|history| - 1], history[|history| - 1];
            Dropped(history, n) <==> Dropped(front, n) || (last.Clears? && WaitsAt(front, n))
  {
    var front := history[..|history| - 1];
    if k: nat :| DroppedAt(history, k, n) {
      if k < |front| {
        assert history[..k] == front[..k];
        assert DroppedAt(front, k, n);
      }
    }
    if k: nat :| DroppedAt(front, k, n) {
      assert history[..k] == front[..k];
      assert DroppedAt(history, k, n);
    }
    if history[|front|].Clears? && WaitsAt(front, n) {
      assert DroppedAt(history, |front|, n);
    }
  }

  ghost predicate InOrder(history: seq<Event>) {
    && Increasing(DeliveredNumbers(history))
    && (forall i | 0 <= i < |DeliveredNumbers(history)| :: DeliveredNumbers(history)[i] < Marked(history))
    && Marked(history) <= |Given(history)|
    && Delivered(history) == Selected(Given(history), DeliveredNumbers(history))
  }

  lemma {:induction false} DeliveredInOrder(history: seq<Event>)
    ensures InOrder(history)
  {
    if history != [] {
      var front, last := history[..|history| - 1], history[|history| - 1];
      DeliveredInOrder(front);
      MessagesWaitFrom(front);
      var messages, texts := Messages(front), Given(front);
      TheRestWaits(messages, texts, Marked(front), |messages|);
      assert messages[..|messages|] == messages;
      var more := if last.Steers? then [last.content] else [];
      var numbers := if last.Injects? then WaitingNumbers(messages) else [];
      SelectedAppend(texts, more, DeliveredNumbers(front), numbers);
      if last.Injects? {
        assert texts + more == texts;
      } else {
        assert Selected(texts + more, numbers) == [];
      }
    }
  }

  /**
   In every run messages are delivered at most once, in the order and with the texts they were
   given, and a message is not delivered exactly if it still waits or waited when the goal was
   cleared.
   */
  lemma {:induction false} DeliveredOnceInOrder(history: seq<Event>, n: nat)
    requires n < |Given(history)|
    ensures Increasing(DeliveredNumbers(history))
    ensures forall i | 0 <= i < |DeliveredNumbers(history)| :: DeliveredNumbers(history)[i] < |Given(history)|
    ensures Delivered(history) == Selected(Given(history), DeliveredNumbers(history))
    ensures n in DeliveredNumbers(history) <==> !WaitsAt(history, n) && !Dropped(history, n)
  {
    DeliveredInOrder(history);
    FateOfMessage(history, n);
  }

  lemma {:induction false} FateOfMessage(history: seq<Event>, n: nat)
    requires n < |Given(history)|
    ensures n in DeliveredNumbers(history) <==> !WaitsAt(history, n) && !Dropped(history, n)
    ensures Dropped(history, n) ==> !WaitsAt(history, n)
  {
    var front, last := history[..|history| - 1], history[|history| - 1];
    MessagesWaitFrom(history);
    MessagesWaitFrom(front);
    DroppedLater(history, n);
    var messages := Messages(front);
    TheRestWaits(messages, Given(front), Marked(front), |messages|);
    assert messages[..|messages|] == messages;
    if n < |Given(front)| {
      FateOfMessage(front, n);
      WaitsNumbered(front, n);
    } else {
      DeliveredInOrder(front);
      NotDroppedBefore(front, n);
    }
  }

  lemma WaitsNumbered(history: seq<Event>, n: nat)
    requires n < |Given(history)|
    ensures n in WaitingNumbers(Messages(history)) <==> WaitsAt(history, n)
  {
    MessagesWaitFrom(history);
    var messages := Messages(history);
    TheRestWaits(messages, Given(history), Marked(history), |messages|);
    assert messages[..|messages|] == messages;
    if WaitsAt(history, n) {
      assert WaitingNumbers(messages)[n - Marked(history)] == n;
    }
  }

  lemma {:induction false} GivenGrows(history: seq<Event>, k: nat)
    requires k <= |history|
    ensures |Given(history[..k])| <= |Given(history)|
  {
    if k < |history| {
      assert history[..|history| - 1][..k] == history[..k];
      GivenGrows(history[..|history| - 1], k);
    } else {
      assert history[..k] == history;
    }
  }

  lemma NotDroppedBefore(history: seq<Event>, n: nat)
    requires n >= |Given(history)|
    ensures !Dropped(history, n)
  {
    if k: nat :| DroppedAt(history, k, n) {
      GivenGrows(history, k);
      MessagesWaitFrom(history[..k]);
    }
  }

  /** A message given before a cancellation is lost to a goal that is taken up again after it. */
  lemma ClearedIsLost(content: string)
    ensures Delivered([Steers(content), Clears, Injects]) == [] && Dropped([Steers(content), Clears, Injects], 0)
  {
    var history := [Steers(content), Clears, Injects];
    assert history[..2] == [Steers(content), Clears] && history[..2][..1] == [Steers(content)] == history[..1];
    assert [Steers(content)][..0] == [];
    var emptied := Messages(history[..2]);
    assert Messages([Steers(content)]) == [Message(content, false)];
    assert emptied == [Message("", true)] && emptied[..0] == [];
    assert Waiting(emptied) == [];
    assert Delivered([Steers(content)]) == [] && Delivered(history[..2]) == [];
    assert DroppedAt(history, 1, 0);
  }
}
