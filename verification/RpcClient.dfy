/** `PiRpcClient` of scripts/control-ui-i18n.ts: one request at a time over a child process,
    driven by output lines, timers, write callbacks and process events. */
module RpcClient {
  import opened Options

  /** What became of the promise a `prompt` call returned. `origin` is the number of the prompt
      for which the child produced the `agent_end` that resolved it; no code looks at it. */
  datatype Settlement = Queued | Awaiting | Resolved(origin: nat) | Rejected

  datatype Pending = Pending(id: nat, responseReceived: bool)

  /** A line of child output, after JSON parsing. */
  datatype Line =
    | Noise
    | Response(id: Option<nat>, success: bool)
    | AgentEnd(origin: nat, hasText: bool)

  datatype Event =
    | PromptCalled
    | TurnTaken
    | LineRead(line: Line)
    | TimerFired(id: nat)
    | WriteFailed(id: nat)
    | ProcessFailed
    | ProcessClosed
    | CloseCalled

  /** `calls` is the promise chain kept in `sequence`, oldest first; `timers` are the armed
      timeouts and `requestCount` numbers the prompts written. */
  datatype Client = Client(closed: bool, pending: Option<Pending>, requestCount: nat,
                           calls: seq<Settlement>, timers: set<nat>)

  const NEW_CLIENT := Client(false, None, 0, [], {})

  predicate IsSettled(s: Settlement) {
    s.Resolved? || s.Rejected?
  }

  /** Settling a promise takes effect once. Prompt `id` was written by the call before index `id`. */
  function Settle(calls: seq<Settlement>, id: nat, outcome: Settlement): seq<Settlement> {
    if 0 < id <= |calls| && calls[id - 1] == Awaiting then calls[id - 1 := outcome] else calls
  }

  /** Drop the pending prompt, disarm its timer and settle its promise. */
  function SettlePending(c: Client, outcome: Settlement): Client {
    match c.pending
    case None => c
    case Some(p) => c.(pending := None, timers := c.timers - {p.id}, calls := Settle(c.calls, p.id, outcome))
  }

  /** Index of the first call in the chain that has not begun. */
  function FirstQueued(calls: seq<Settlement>): nat {
    if calls == [] || calls[0] == Queued then 0 else 1 + FirstQueued(calls[1..])
  }

  /** The next link of the chain runs: it passes on a rejection, refuses when the process is
      gone, and otherwise writes its prompt. */
  function TakeTurn(c: Client): Client {
    var k := FirstQueued(c.calls);
    if k >= |c.calls| || (k > 0 && c.calls[k - 1] == Awaiting) then c
    else if (k > 0 && c.calls[k - 1] == Rejected) || c.closed then c.(calls := c.calls[k := Rejected])
    else
      var id := c.requestCount + 1;
      c.(requestCount := id, pending := Some(Pending(id, false)), timers := c.timers + {id},
         calls := c.calls[k := Awaiting])
  }

  function ReadLine(c: Client, line: Line): Client {
    if c.pending.None? then c
    else match line
      case Noise => c
      case Response(id, success) =>
        if id != Some(c.pending.value.id) then c
        else if !success then SettlePending(c, Rejected)
        else c.(pending := Some(c.pending.value.(responseReceived := true)))
      case AgentEnd(origin, hasText) =>
        SettlePending(c, if hasText then Resolved(origin) else Rejected)
  }

  function FireTimer(c: Client, id: nat): Client {
    if id !in c.timers then c
    else if c.pending.Some? && c.pending.value.id == id
    then SettlePending(c, Rejected).(closed := true)
    else c.(timers := c.timers - {id})
  }

  function FailWrite(c: Client, id: nat): Client {
    var isPending := c.pending.Some? && c.pending.value.id == id;
    c.(timers := c.timers - {id}, pending := if isPending then None else c.pending,
       calls := Settle(c.calls, id, Rejected))
  }

  function Step(c: Client, e: Event): Client {
    match e
    case PromptCalled => c.(calls := c.calls + [Queued])
    case TurnTaken => TakeTurn(c)
    case LineRead(line) => ReadLine(c, line)
    case TimerFired(id) => FireTimer(c, id)
    case WriteFailed(id) => FailWrite(c, id)
    case ProcessFailed => SettlePending(c, Rejected)
    case ProcessClosed => SettlePending(c, Rejected).(closed := true)
    case CloseCalled => c.(closed := true)
  }

  /** The client after a run. */
  function After(events: seq<Event>): Client {
    if events == [] then NEW_CLIENT
    else Step(After(events[..|events| - 1]), events[|events| - 1])
  }

  // ---------------------------------------------------------------- the object

  class PiRpcClient {
    var closed: bool
    var pending: Option<Pending>
    var requestCount: nat
    var sequence: seq<Settlement>
    var timers: set<nat>

    function View(): Client
      reads this
    {
      Client(closed, pending, requestCount, sequence, timers)
    }

    constructor ()
      ensures View() == NEW_CLIENT
    {
      closed, pending, requestCount, sequence, timers := false, None, 0, [], {};
    }

    /** The resolve and reject functions stored with the pending prompt. */
    method Finish(p: Pending, outcome: Settlement)
      requires pending == Some(p)
      modifies this
      ensures View() == SettlePending(old(View()), outcome)
    {
      pending := None;
      timers := timers - {p.id};
      if 0 < p.id <= |sequence| && sequence[p.id - 1] == Awaiting {
        sequence := sequence[p.id - 1 := outcome];
      }
    }

    method RejectPending()
      modifies this
      ensures View() == SettlePending(old(View()), Rejected)
    {
      if pending.Some? {
        Finish(pending.value, Rejected);
      }
    }

    method HandleStdoutLine(line: Line)
      modifies this
      ensures View() == Step(old(View()), LineRead(line))
    {
      if pending.None? {
        return;
      }
      var current := pending.value;
      match line {
        case Noise =>
        case Response(id, success) =>
          if id != Some(current.id) {
            return;
          }
          if !success {
            Finish(current, Rejected);
            return;
          }
          pending := Some(current.(responseReceived := true));
        case AgentEnd(origin, hasText) =>
          if hasText {
            Finish(current, Resolved(origin));
          } else {
            Finish(current, Rejected);
          }
      }
    }

    method Prompt()
      modifies this
      ensures View() == Step(old(View()), PromptCalled)
    {
      sequence := sequence + [Queued];
    }

    /** The function `prompt` appends to the chain, once its predecessor has settled. */
    method RunNextPrompt()
      modifies this
      ensures View() == Step(old(View()), TurnTaken)
    {
      var k := FirstQueued(sequence);
      if k >= |sequence| || (k > 0 && sequence[k - 1] == Awaiting) {
        return;
      }
      if k > 0 && sequence[k - 1] == Rejected {
        sequence := sequence[k := Rejected];
      } else if closed {
        sequence := sequence[k := Rejected];
      } else {
        requestCount := requestCount + 1;
        timers := timers + {requestCount};
        pending := Some(Pending(requestCount, false));
        sequence := sequence[k := Awaiting];
      }
    }

    method OnTimer(id: nat)
      modifies this
      ensures View() == Step(old(View()), TimerFired(id))
    {
      if id !in timers {
        return;
      }
      timers := timers - {id};
      if pending.Some? && pending.value.id == id {
        var current := pending.value;
        Close();
        Finish(current, Rejected);
      }
    }

    method OnWriteError(id: nat)
      modifies this
      ensures View() == Step(old(View()), WriteFailed(id))
    {
      timers := timers - {id};
      if pending.Some? && pending.value.id == id {
        pending := None;
      }
      sequence := Settle(sequence, id, Rejected);
    }

    method OnProcessError()
      modifies this
      ensures View() == Step(old(View()), ProcessFailed)
    {
      RejectPending();
    }

    method OnProcessClose()
      modifies this
      ensures View() == Step(old(View()), ProcessClosed)
    {
      closed := true;
      RejectPending();
    }

    method Close()
      modifies this
      ensures View() == Step(old(View()), CloseCalled)
    {
      closed := true;
    }
  }

  // ---------------------------------------------------------------- what every run keeps

  /** The first `requestCount` calls wrote a prompt each; all but the last of those resolved. The
      last one is unsettled exactly while it is pending, and then its timer, and no other, is armed.
      Later calls are queued or rejected, and nothing resolved comes after a rejection. */
  ghost predicate Invariant(c: Client) {
    var n := c.requestCount;
    && n <= |c.calls|
    && (forall k :: 0 <= k < n - 1 ==> c.calls[k].Resolved?)
    && (n > 0 ==> c.calls[n - 1] != Queued)
    && (forall k :: n <= k < |c.calls| ==> c.calls[k] == Queued || c.calls[k] == Rejected)
    && (forall j, k :: n <= j < k < |c.calls| && c.calls[k] == Rejected ==> c.calls[j] == Rejected)
    && (n > 0 && n < |c.calls| && c.calls[n] == Rejected ==> IsSettled(c.calls[n - 1]))
    && (match c.pending
        case None => (n > 0 ==> IsSettled(c.calls[n - 1])) && c.timers == {}
        case Some(p) => p.id == n > 0 && c.calls[n - 1] == Awaiting && c.timers == {n})
  }

  lemma {:induction false} FirstQueuedIsFirst(calls: seq<Settlement>)
    ensures FirstQueued(calls) <= |calls|
    ensures FirstQueued(calls) < |calls| ==> calls[FirstQueued(calls)] == Queued
    ensures forall j :: 0 <= j < FirstQueued(calls) ==> calls[j] != Queued
  {
    if calls != [] && calls[0] != Queued {
      FirstQueuedIsFirst(calls[1..]);
      forall j | 0 <= j < FirstQueued(calls) ensures calls[j] != Queued {
        assert j > 0 ==> calls[j] == calls[1..][j - 1];
      }
    }
  }

  lemma {:induction false} SettlingKeepsInvariant(c: Client, outcome: Settlement)
    requires Invariant(c) && IsSettled(outcome)
    ensures Invariant(SettlePending(c, outcome))
  {
    if c.pending.Some? {
      assert c.calls[c.requestCount - 1] == Awaiting;
    }
  }

  lemma {:induction false} TurnKeepsInvariant(c: Client)
    requires Invariant(c)
    ensures Invariant(TakeTurn(c))
  {
    FirstQueuedIsFirst(c.calls);
    var k := FirstQueued(c.calls);
    if c.requestCount <= k < |c.calls| && (k == 0 || c.calls[k - 1] != Awaiting) {
      if k > c.requestCount {
        assert c.calls[k - 1] == Rejected;
      }
    }
  }

  lemma {:induction false} StepKeepsInvariant(c: Client, e: Event)
    requires Invariant(c)
    ensures Invariant(Step(c, e))
  {
    match e
    case PromptCalled =>
    case TurnTaken => TurnKeepsInvariant(c);
    case LineRead(line) =>
      SettlingKeepsInvariant(c, Rejected);
      SettlingKeepsInvariant(c, Resolved(if line.AgentEnd? then line.origin else 0));
    case TimerFired(id) => SettlingKeepsInvariant(c, Rejected);
    case WriteFailed(id) => WriteFailureKeepsInvariant(c, id);
    case ProcessFailed => SettlingKeepsInvariant(c, Rejected);
    case ProcessClosed => SettlingKeepsInvariant(c, Rejected);
    case CloseCalled =>
  }

  lemma {:induction false} WriteFailureKeepsInvariant(c: Client, id: nat)
    requires Invariant(c)
    ensures Invariant(FailWrite(c, id))
  {
    if 0 < id <= |c.calls| && c.calls[id - 1] == Awaiting {
      assert id == c.requestCount;
    }
  }

  /** In every run the invariant holds; in particular a timer is armed for the pending prompt only. */
  lemma {:induction false} EveryRunKeepsInvariant(events: seq<Event>)
    ensures Invariant(After(events))
    ensures After(events).timers == if After(events).pending.Some? then {After(events).requestCount} else {}
  {
    if events != [] {
      EveryRunKeepsInvariant(events[..|events| - 1]);
      StepKeepsInvariant(After(events[..|events| - 1]), events[|events| - 1]);
    }
  }

  /** A call is outstanding exactly while it is the pending one, so there is never more than one,
      and the pending one always has its timer armed. */
  lemma {:induction false} OnePromptAtATime(events: seq<Event>, k: nat)
    requires k < |After(events).calls|
    ensures var c := After(events);
            c.calls[k] == Awaiting <==> c.pending.Some? && c.pending.value.id == k + 1 && c.timers == {k + 1}
  {
    EveryRunKeepsInvariant(events);
    var c := After(events);
    if c.calls[k] == Awaiting {
      assert k == c.requestCount - 1;
    }
  }

  lemma {:induction false} StepKeepsSettled(c: Client, e: Event, k: nat)
    requires Invariant(c) && k < |c.calls| && IsSettled(c.calls[k])
    ensures k < |Step(c, e).calls| && Step(c, e).calls[k] == c.calls[k]
  {
    FirstQueuedIsFirst(c.calls);
  }

  lemma {:induction false} LastStep(events: seq<Event>, more: seq<Event>)
    requires more != []
    ensures After(events + more) == Step(After(events + more[..|more| - 1]), more[|more| - 1])
  {
    assert (events + more)[..|events + more| - 1] == events + more[..|more| - 1];
  }

  /** A settled prompt keeps its outcome whatever happens later. */
  lemma {:induction false} SettledOnce(events: seq<Event>, more: seq<Event>, k: nat)
    requires k < |After(events).calls| && IsSettled(After(events).calls[k])
    ensures k < |After(events + more).calls| && After(events + more).calls[k] == After(events).calls[k]
  {
    if more == [] {
      assert events + more == events;
    } else {
      var rest := more[..|more| - 1];
      SettledOnce(events, rest, k);
      LastStep(events, more);
      EveryRunKeepsInvariant(events + rest);
      StepKeepsSettled(After(events + rest), more[|more| - 1], k);
    }
  }

  lemma {:induction false} RejectionStopsStep(c: Client, e: Event, k: nat)
    requires Invariant(c) && k < |c.calls| && c.calls[k] == Rejected
    ensures Step(c, e).requestCount == c.requestCount
  {
    FirstQueuedIsFirst(c.calls);
  }

  /** After any rejection nothing more is written to this child, ever. */
  lemma {:induction false} RejectionPoisons(events: seq<Event>, more: seq<Event>, k: nat)
    requires k < |After(events).calls| && After(events).calls[k] == Rejected
    ensures After(events + more).requestCount == After(events).requestCount
  {
    if more == [] {
      assert events + more == events;
    } else {
      var rest := more[..|more| - 1];
      RejectionPoisons(events, rest, k);
      SettledOnce(events, rest, k);
      LastStep(events, more);
      EveryRunKeepsInvariant(events + rest);
      RejectionStopsStep(After(events + rest), more[|more| - 1], k);
    }
  }

  // ---------------------------------------------------------------- answers match prompts

  /** The prompt the child answered last. */
  function LastAnswered(events: seq<Event>): nat {
    if events == [] then 0
    else match events[|events| - 1]
      case LineRead(AgentEnd(origin, _)) => origin
      case _ => LastAnswered(events[..|events| - 1])
  }

  /** The child answers prompts it has been sent, in order, each at most once. */
  ghost predicate ChildBehaves(events: seq<Event>) {
    events == [] ||
    (var before := events[..|events| - 1];
     ChildBehaves(before) &&
     match events[|events| - 1]
     case LineRead(AgentEnd(origin, _)) => LastAnswered(before) < origin <= After(before).requestCount
     case _ => true)
  }

  ghost predicate OwnAnswers(c: Client, last: nat) {
    forall k :: 0 <= k < |c.calls| && c.calls[k].Resolved? ==> c.calls[k].origin == k + 1 <= last
  }

  lemma {:induction false} AnswerIsForPending(c: Client, origin: nat, last: nat)
    requires Invariant(c) && OwnAnswers(c, last)
    requires last < origin <= c.requestCount && c.pending.Some?
    ensures c.pending.value.id == origin
  {
    var n := c.requestCount;
    if n >= 2 {
      assert c.calls[n - 2].Resolved?;
    }
  }

  lemma {:induction false} RejectingAnswersNothing(c: Client, id: nat, last: nat)
    requires OwnAnswers(c, last)
    ensures OwnAnswers(SettlePending(c, Rejected), last) && OwnAnswers(c.(calls := Settle(c.calls, id, Rejected)), last)
  {
  }

  lemma {:induction false} TurnAnswersNothing(c: Client, last: nat)
    requires OwnAnswers(c, last)
    ensures OwnAnswers(TakeTurn(c), last)
  {
    FirstQueuedIsFirst(c.calls);
  }

  /** A step that reads no answer resolves nothing. */
  lemma {:induction false} OtherStepsAnswerNothing(c: Client, e: Event, last: nat)
    requires OwnAnswers(c, last)
    requires !(e.LineRead? && e.line.AgentEnd?)
    ensures OwnAnswers(Step(c, e), last)
  {
    if e.TurnTaken? {
      TurnAnswersNothing(c, last);
    } else if !e.PromptCalled? {
      RejectingAnswersNothing(c, if e.WriteFailed? then e.id else 0, last);
    }
  }

  /** A step that reads an answer takes it for the pending prompt, if there is one. */
  lemma {:induction false} AnswerIsTaken(c: Client, origin: nat, hasText: bool, last: nat)
    requires Invariant(c) && OwnAnswers(c, last) && last < origin <= c.requestCount
    ensures OwnAnswers(Step(c, LineRead(AgentEnd(origin, hasText))), origin)
  {
    if c.pending.Some? {
      AnswerIsForPending(c, origin, last);
    }
  }

  /** With a child that behaves, every prompt that resolves got the answer to that prompt,
      although the answer carries no id to check. */
  lemma {:induction false} AnswersMatchPrompts(events: seq<Event>)
    requires ChildBehaves(events)
    ensures OwnAnswers(After(events), LastAnswered(events))
  {
    if events != [] {
      var before, e := events[..|events| - 1], events[|events| - 1];
      AnswersMatchPrompts(before);
      EveryRunKeepsInvariant(before);
      if e.LineRead? && e.line.AgentEnd? {
        AnswerIsTaken(After(before), e.line.origin, e.line.hasText, LastAnswered(before));
      } else {
        OtherStepsAnswerNothing(After(before), e, LastAnswered(before));
      }
    }
  }

  lemma {:induction false} OneEventMore(events: seq<Event>, e: Event)
    ensures After(events + [e]) == Step(After(events), e)
  {
    assert (events + [e])[..|events|] == events;
  }

  /** Two prompts, the first of them written. */
  lemma {:induction false} FirstWritten()
    ensures After([PromptCalled, PromptCalled, TurnTaken]) ==
              Client(false, Some(Pending(1, false)), 1, [Awaiting, Queued], {1})
  {
    OneEventMore([], PromptCalled);
    assert [] + [PromptCalled] == [PromptCalled];
    OneEventMore([PromptCalled], PromptCalled);
    assert [PromptCalled] + [PromptCalled] == [PromptCalled, PromptCalled];
    OneEventMore([PromptCalled, PromptCalled], TurnTaken);
    assert [PromptCalled, PromptCalled] + [TurnTaken] == [PromptCalled, PromptCalled, TurnTaken];
  }

  /** Then the first of them answered, and the second one written. */
  lemma {:induction false} FirstAnswered()
    ensures After([PromptCalled, PromptCalled, TurnTaken, LineRead(AgentEnd(1, true)), TurnTaken]) ==
              Client(false, Some(Pending(2, false)), 2, [Resolved(1), Awaiting], {2})
  {
    var answer := LineRead(AgentEnd(1, true));
    var written := [PromptCalled, PromptCalled, TurnTaken];
    FirstWritten();
    OneEventMore(written, answer);
    OneEventMore(written + [answer], TurnTaken);
    assert written + [answer] + [TurnTaken] == [PromptCalled, PromptCalled, TurnTaken, answer, TurnTaken];
    assert [Resolved(1), Queued][1..] == [Queued] && FirstQueued([Resolved(1), Queued]) == 1;
    assert After(written + [answer]) == Client(false, None, 1, [Resolved(1), Queued], {});
  }

  /** A child that answers one prompt twice gets its second answer taken for the next prompt. */
  lemma {:induction false} SecondAnswerIsMistaken()
    ensures var line := LineRead(AgentEnd(1, true));
            var c := After([PromptCalled, PromptCalled, TurnTaken, line, TurnTaken, line]);
            c.calls == [Resolved(1), Resolved(1)]
  {
    var line := LineRead(AgentEnd(1, true));
    var first := [PromptCalled, PromptCalled, TurnTaken, line, TurnTaken];
    FirstAnswered();
    OneEventMore(first, line);
    assert first + [line] == [PromptCalled, PromptCalled, TurnTaken, line, TurnTaken, line];
  }

  // ---------------------------------------------------------------- nothing hangs

  function Turns(c: Client, n: nat): Client {
    if n == 0 then c else TakeTurn(Turns(c, n - 1))
  }

  lemma {:induction false} RejectionSpreads(c: Client, n: nat, k: nat)
    requires 0 < k <= |c.calls| && c.calls[k - 1] == Rejected
    requires forall j :: 0 <= j < k ==> IsSettled(c.calls[j])
    requires forall j :: k <= j < |c.calls| ==> c.calls[j] == Queued || c.calls[j] == Rejected
    requires n <= |c.calls|
    ensures var d := Turns(c, n);
            && |d.calls| == |c.calls|
            && (forall j :: 0 <= j < |d.calls| && (j < k || j < n) ==> IsSettled(d.calls[j]))
            && (forall j :: k - 1 <= j < |d.calls| ==> d.calls[j] == Queued || d.calls[j] == Rejected)
            && d.calls[k - 1] == Rejected
  {
    if n > 0 {
      RejectionSpreads(c, n - 1, k);
      FirstQueuedIsFirst(Turns(c, n - 1).calls);
    }
  }

  /** Whatever is going on, when the pending prompt's timer fires every call made so far ends:
      the pending one and all behind it are rejected. */
  lemma {:induction false} TimeoutEndsEverything(events: seq<Event>)
    requires After(events).pending.Some?
    ensures var c := After(events);
            var d := Turns(Step(c, TimerFired(c.pending.value.id)), |c.calls|);
            && |d.calls| == |c.calls|
            && (forall j :: 0 <= j < |d.calls| ==> IsSettled(d.calls[j]))
            && (forall j :: 0 <= j < |d.calls| && c.requestCount <= j + 1 ==> d.calls[j] == Rejected)
  {
    EveryRunKeepsInvariant(events);
    var c := After(events);
    RejectionSpreads(Step(c, TimerFired(c.requestCount)), |c.calls|, c.requestCount);
  }

  // ---------------------------------------------------------------- what becomes of a prompt

  /** How the pending prompt `id` stands after an event: an answer with text resolves it, an answer
      without one rejects it, and so do a refusal, its timer, its failed write, and the end of the
      process. Nothing else settles it. */
  function StandsAfter(id: nat, e: Event): Settlement {
    match e
    case LineRead(AgentEnd(origin, hasText)) => if hasText then Resolved(origin) else Rejected
    case LineRead(Response(about, success)) => if about == Some(id) && !success then Rejected else Awaiting
    case TimerFired(of) => if of == id then Rejected else Awaiting
    case WriteFailed(of) => if of == id then Rejected else Awaiting
    case ProcessFailed => Rejected
    case ProcessClosed => Rejected
    case _ => Awaiting
  }

  predicate IsReceipt(id: nat, e: Event) {
    e == LineRead(Response(Some(id), true))
  }

  /** `d` is client `c` after `e`, which leaves its pending prompt as said, pending until it is settled,
      every other call as it was, and one more call only if `prompt` was called. */
  ghost predicate StandsAs(c: Client, d: Client, e: Event) {
    var n := c.requestCount;
    && 0 < n <= |c.calls| && d.requestCount == n
    && |d.calls| == (if e == PromptCalled then |c.calls| + 1 else |c.calls|)
    && d.calls[n - 1] == StandsAfter(n, e)
    && (forall k :: 0 <= k < |d.calls| && k != n - 1 ==> d.calls[k] == if k < |c.calls| then c.calls[k] else Queued)
    && (if StandsAfter(n, e) != Awaiting then d.pending.None?
        else c.pending.Some? && d.pending == Some(Pending(n, c.pending.value.responseReceived || IsReceipt(n, e))))
  }

  lemma {:induction false} SettledStands(c: Client, d: Client, e: Event)
    requires Invariant(c) && c.pending.Some? && IsSettled(StandsAfter(c.requestCount, e))
    requires d.calls == c.calls[c.requestCount - 1 := StandsAfter(c.requestCount, e)]
    requires d.requestCount == c.requestCount && d.pending.None?
    ensures StandsAs(c, d, e)
  {
    assert c.calls[c.requestCount - 1] == Awaiting;
  }

  lemma {:induction false} OthersStand(c: Client, d: Client, e: Event)
    requires Invariant(c) && c.pending.Some? && StandsAfter(c.requestCount, e) == Awaiting
    requires d.calls == if e == PromptCalled then c.calls + [Queued] else c.calls
    requires d.requestCount == c.requestCount && d.pending.Some? && d.pending.value.id == c.pending.value.id
    requires d.pending.value.responseReceived == (c.pending.value.responseReceived || IsReceipt(c.requestCount, e))
    ensures StandsAs(c, d, e)
  {
  }

  lemma {:induction false} TurnDoesNothing(c: Client)
    requires Invariant(c) && c.pending.Some?
    ensures TakeTurn(c) == c
  {
    FirstQueuedIsFirst(c.calls);
    assert c.calls[c.requestCount - 1] == Awaiting;
    if FirstQueued(c.calls) < |c.calls| {
      assert c.calls[FirstQueued(c.calls)] == Queued;
      assert FirstQueued(c.calls) >= c.requestCount;
    }
  }

  lemma {:induction false} StepSettles(c: Client, e: Event)
    requires Invariant(c) && c.pending.Some? && IsSettled(StandsAfter(c.requestCount, e))
    ensures StandsAs(c, Step(c, e), e)
  {
    assert c.calls[c.requestCount - 1] == Awaiting;
    SettledStands(c, Step(c, e), e);
  }

  lemma {:induction false} StepStands(c: Client, e: Event)
    requires Invariant(c) && c.pending.Some?
    ensures StandsAs(c, Step(c, e), e)
  {
    if IsSettled(StandsAfter(c.requestCount, e)) {
      StepSettles(c, e);
    } else {
      TurnDoesNothing(c);
      OthersStand(c, Step(c, e), e);
    }
  }

  /** One event on a client with a pending prompt. */
  lemma {:induction false} PendingStandsAfter(events: seq<Event>, e: Event)
    requires After(events).pending.Some?
    ensures StandsAs(After(events), After(events + [e]), e)
  {
    EveryRunKeepsInvariant(events);
    OneEventMore(events, e);
    StepStands(After(events), e);
  }

  /** And one on a client with no prompt pending: whatever the child or a timer says then is ignored,
      and only a turn of the chain begins or refuses anything. */
  lemma {:induction false} NothingPending(events: seq<Event>, e: Event)
    requires After(events).pending.None? && e != TurnTaken
    ensures var c, d := After(events), After(events + [e]);
            && d.pending.None? && d.requestCount == c.requestCount
            && d.calls == if e == PromptCalled then c.calls + [Queued] else c.calls
  {
    EveryRunKeepsInvariant(events);
    OneEventMore(events, e);
    var c := After(events);
    if e.WriteFailed? && 0 < e.id <= |c.calls| && c.calls[e.id - 1] == Awaiting {
      assert false;
    }
  }

  ghost predicate NoneSettles(id: nat, events: seq<Event>) {
    forall i :: 0 <= i < |events| ==> StandsAfter(id, events[i]) == Awaiting
  }

  lemma {:induction false} PendingUntilSettled(events: seq<Event>, more: seq<Event>)
    requires After(events).pending.Some? && NoneSettles(After(events).requestCount, more)
    ensures After(events + more).pending.Some? && After(events + more).requestCount == After(events).requestCount
  {
    if more == [] {
      assert events + more == events;
    } else {
      var rest, last := more[..|more| - 1], more[|more| - 1];
      PendingUntilSettled(events, rest);
      LastStep(events, more);
      EveryRunKeepsInvariant(events + rest);
      StepStands(After(events + rest), last);
      assert StandsAfter(After(events).requestCount, last) == Awaiting;
    }
  }

  /** So a written prompt is settled by the first event of the rest of the run that settles it, and is
      still pending when there is none. */
  lemma {:induction false} FirstSettles(events: seq<Event>, more: seq<Event>, e: Event, later: seq<Event>)
    requires After(events).pending.Some? && NoneSettles(After(events).requestCount, more)
    requires StandsAfter(After(events).requestCount, e) != Awaiting
    ensures After(events + more).pending.Some? && After(events + more).requestCount == After(events).requestCount
    ensures var n := After(events).requestCount;
            var calls := After(events + more + [e] + later).calls;
            0 < n <= |calls| && calls[n - 1] == StandsAfter(n, e)
  {
    PendingUntilSettled(events, more);
    PendingStandsAfter(events + more, e);
    assert IsSettled(StandsAfter(After(events).requestCount, e));
    SettledOnce(events + more + [e], later, After(events).requestCount - 1);
  }

  /** Why a client is closed. */
  predicate Closes(events: seq<Event>, i: nat)
    requires i < |events|
  {
    || events[i] == CloseCalled || events[i] == ProcessClosed
    || (var c := After(events[..i]); events[i] == TimerFired(c.requestCount) && c.pending.Some?)
  }

  /** A client is closed exactly once someone closed it, its process ended, or a pending prompt timed
      out. */
  lemma {:induction false} ClosedExactlyWhen(events: seq<Event>)
    ensures After(events).closed <==> exists i :: 0 <= i < |events| && Closes(events, i)
  {
    if events != [] {
      var n := |events| - 1;
      var before, e := events[..n], events[n];
      ClosedExactlyWhen(before);
      EveryRunKeepsInvariant(before);
      assert forall i :: 0 <= i < n ==> before[..i] == events[..i];
      assert forall i :: 0 <= i < n ==> Closes(before, i) == Closes(events, i);
      assert After(events).closed <==> After(before).closed || Closes(events, n);
    }
  }

  /** The next call in the chain, if there is one, once its predecessor has settled: it is refused
      behind a rejection or on a closed client, and otherwise written and pending. */
  lemma {:induction false} TurnWritesOrRefuses(events: seq<Event>, k: nat)
    requires k < |After(events).calls| && After(events).calls[k] == Queued
    requires forall j :: 0 <= j < k ==> IsSettled(After(events).calls[j])
    ensures var c, d := After(events), After(events + [TurnTaken]);
            var refused := c.closed || (k > 0 && c.calls[k - 1] == Rejected);
            && d.calls == c.calls[k := if refused then Rejected else Awaiting]
            && d.requestCount == (if refused then c.requestCount else k + 1)
            && d.pending == (if refused then None else Some(Pending(k + 1, false)))
  {
    EveryRunKeepsInvariant(events);
    OneEventMore(events, TurnTaken);
    FirstQueuedIsFirst(After(events).calls);
    var c := After(events);
    assert FirstQueued(c.calls) == k;
    assert c.pending.None?;
    if c.requestCount < k {
      assert c.calls[k - 1] == Rejected;
    }
  }

  /** Nothing begins while a prompt is pending, or without a call. */
  lemma {:induction false} TurnWaits(events: seq<Event>)
    requires After(events).pending.Some? ||
             forall k :: 0 <= k < |After(events).calls| ==> After(events).calls[k] != Queued
    ensures After(events + [TurnTaken]) == After(events)
  {
    EveryRunKeepsInvariant(events);
    OneEventMore(events, TurnTaken);
    FirstQueuedIsFirst(After(events).calls);
  }

  ghost predicate TextsRead(c: Client, events: seq<Event>) {
    forall k :: 0 <= k < |c.calls| && c.calls[k].Resolved? ==> LineRead(AgentEnd(c.calls[k].origin, true)) in events
  }

  lemma {:induction false} StepReadsTexts(c: Client, events: seq<Event>, e: Event)
    requires TextsRead(c, events)
    ensures TextsRead(Step(c, e), events + [e])
  {
    FirstQueuedIsFirst(c.calls);
    assert e in events + [e] && forall x :: x in events ==> x in events + [e];
    forall k | 0 <= k < |Step(c, e).calls| && Step(c, e).calls[k].Resolved?
      ensures LineRead(AgentEnd(Step(c, e).calls[k].origin, true)) in events + [e]
    {
      if k < |c.calls| && c.calls[k] == Step(c, e).calls[k] {
        assert LineRead(AgentEnd(c.calls[k].origin, true)) in events;
      } else {
        assert e == LineRead(AgentEnd(Step(c, e).calls[k].origin, true));
      }
    }
  }

  /** No prompt resolves without an answer that has a translation in it. */
  lemma {:induction false} ResolvedHasText(events: seq<Event>, k: nat)
    requires k < |After(events).calls| && After(events).calls[k].Resolved?
    ensures LineRead(AgentEnd(After(events).calls[k].origin, true)) in events
  {
    EveryResolvedHasText(events);
  }

  lemma {:induction false} EveryResolvedHasText(events: seq<Event>)
    ensures TextsRead(After(events), events)
  {
    if events != [] {
      var n := |events| - 1;
      EveryResolvedHasText(events[..n]);
      StepReadsTexts(After(events[..n]), events[..n], events[n]);
      assert events == events[..n] + [events[n]];
    }
  }
}
