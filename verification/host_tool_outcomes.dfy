/**
 * What becomes of each proxied call (`daemon/hostTools.ts:160-264`), call by call: what every step does to one call, what
 * its promise is settled with and why, and what the journal is told of it.
 */
module HostToolOutcomes {
  import opened Common
  import opened Wire
  import opened OrderedMap
  import opened HostTools

  // ---- one call's story ---------------------------------------------------------------------------------------

  /** The step settles the call, with this outcome. */
  ghost predicate Settles(b: Broker, step: Step, id: string, outcome: Outcome) {
    Has(b.pending, id) &&
    var c := Get(b.pending, id).value;
    match step
    case Answer(thread, x, success) => x == id && thread == c.thread && c.issued && outcome == Answered(success)
    case Abort(x) => x == id && outcome == Canceled
    case CancelThread(thread) => thread == c.thread && outcome == Canceled
    case Shutdown => outcome == Canceled
    case GraceFires(x) => x == id && outcome == Unavailable(Detached)
    case AnswerTimerFires(x) => x == id && outcome == Unavailable(Timeout)
    case _ => false
  }

  /** What the journal is told when a call is settled. */
  function Closing(thread: string, id: string, issued: bool, outcome: Outcome): seq<Emitted> {
    var cancel := if issued then [Emitted(thread, ToolCancel(id))] else [];
    match outcome
    case Answered(_) => [Emitted(thread, RequestResolved(id, "resolved"))]
    case Canceled => cancel
    case Unavailable(Detached) => cancel + [Emitted(thread, ToolUnavailable(id, "detached"))]
    case Unavailable(Timeout) => cancel + [Emitted(thread, ToolUnavailable(id, "timeout"))]
  }

  function Opening(thread: string, id: string, issued: bool): seq<Emitted> {
    if issued then [Emitted(thread, ToolCall(id))] else []
  }

  predicate Mentions(event: WireEvent, id: string) {
    match event
    case ToolCall(x) => x == id
    case ToolCancel(x) => x == id
    case ToolUnavailable(x, _) => x == id
    case RequestResolved(x, _) => x == id
    case _ => false
  }

  /** All the log says of one call, in order. */
  function About(log: seq<Emitted>, id: string): seq<Emitted> {
    if log == [] then [] else
      About(log[..|log| - 1], id) + (if Mentions(log[|log| - 1].event, id) then [log[|log| - 1]] else [])
  }

  lemma {:induction false} AboutAppend(log: seq<Emitted>, more: seq<Emitted>, id: string)
    ensures About(log + more, id) == About(log, id) + About(more, id)
    decreases |more|
  {
    if more == [] {
      assert log + more == log;
    } else {
      var n := |more| - 1;
      assert (log + more)[..|log| + n] == log + more[..n] && (log + more)[|log| + n] == more[n];
      AboutAppend(log, more[..n], id);
    }
  }

  lemma AboutOne(e: Emitted, id: string)
    ensures About([e], id) == if Mentions(e.event, id) then [e] else []
  {
    assert [e][..0] == [];
  }

  lemma AboutTwo(a: Emitted, b: Emitted, id: string)
    ensures About([a] + [b], id)
         == (if Mentions(a.event, id) then [a] else []) + (if Mentions(b.event, id) then [b] else [])
  {
    AboutOne(a, id);
    AboutOne(b, id);
    AboutAppend([a], [b], id);
  }

  /** A closing is about its own call, and about no other. */
  lemma ClosingIsAbout(thread: string, id: string, issued: bool, outcome: Outcome, x: string)
    ensures About(Closing(thread, id, issued, outcome), x) == if x == id then Closing(thread, id, issued, outcome) else []
  {
    hide About;
    var cancel := Emitted(thread, ToolCancel(id));
    AboutOne(cancel, x);
    AboutOne(Emitted(thread, RequestResolved(id, "resolved")), x);
    AboutNone(x);
    match outcome {
      case Answered(_) =>
      case Canceled =>
      case Unavailable(why) =>
        var note := Emitted(thread, ToolUnavailable(id, if why.Detached? then "detached" else "timeout"));
        AboutTwo(cancel, note, x);
        AboutOne(note, x);
        assert [] + [note] == [note];
    }
  }

  lemma AboutNone(id: string)
    ensures About([], id) == []
  {
  }

  // ---- what one step does to one call -------------------------------------------------------------------------

  /** A pending call after a step that leaves it pending: it follows its thread's client. */
  ghost predicate CallFollows(t: Timing, b: Broker, after: Broker, c: Call, d: Call) {
    var here := c.thread in after.attached;
    && d.thread == c.thread && d.madeAt == c.madeAt && d.issued == (c.issued || here)
    && d.answerAt == (if c.issued then c.answerAt else if here then Some(b.now + t.timeoutMs) else None)
    && d.graceAt == (if here then None else if c.thread in b.attached then Some(b.now + t.graceMs) else c.graceAt)
  }

  /** A tool the thread's manifest names, or a resource tool of a server it names, but for the server of child threads. */
  ghost predicate Offers(b: Broker, thread: string, server: string, tool: string) {
    && thread in b.manifests && server in b.manifests[thread]
    && if tool in {"resources/list", "resources/templates/list", "resources/read"} then server != "claude_threads"
       else tool in b.manifests[thread][server]
  }

  /** A call is taken when its tool is offered, its input is good, fewer than eight are open, and it was not aborted. */
  ghost predicate Taken(b: Broker, step: Step, id: string) {
    && step.MakeCall? && step.id == id && Offers(b, step.thread, step.server, step.tool)
    && !step.badInput && OpenCalls(b.pending, step.thread) < 8 && !step.aborted
  }

  ghost predicate IsSettled(b: Broker, after: Broker, id: string, c: Call, outcome: Outcome) {
    && !Has(after.pending, id)
    && Get(after.settled, id) == Some(Settlement(c.thread, outcome, c.issued, c.madeAt, b.now))
    && About(after.log, id) == About(b.log, id) + Closing(c.thread, id, c.issued, outcome)
  }

  ghost predicate StaysPending(t: Timing, b: Broker, after: Broker, id: string, c: Call) {
    && Has(after.pending, id) && CallFollows(t, b, after, c, Get(after.pending, id).value)
    && Get(after.settled, id) == Get(b.settled, id)
    && About(after.log, id) == About(b.log, id) + Opening(c.thread, id, !c.issued && c.thread in after.attached)
  }

  ghost predicate IsMade(t: Timing, b: Broker, after: Broker, id: string, thread: string) {
    var here := thread in b.attached;
    && Get(after.pending, id)
       == Some(Call(thread, b.now, here, if here then None else Some(b.now + t.graceMs),
                    if here then Some(b.now + t.timeoutMs) else None))
    && Get(after.settled, id) == Get(b.settled, id)
    && About(after.log, id) == About(b.log, id) + Opening(thread, id, here)
  }

  ghost predicate Untouched(b: Broker, after: Broker, id: string) {
    && Get(after.pending, id) == Get(b.pending, id) && Get(after.settled, id) == Get(b.settled, id)
    && About(after.log, id) == About(b.log, id)
  }

  ghost predicate SomehowSettles(b: Broker, step: Step, id: string) {
    exists outcome :: Settles(b, step, id, outcome)
  }

  /** All a step does to one call. */
  ghost predicate Does(t: Timing, b: Broker, step: Step, after: Broker, id: string) {
    match Get(b.pending, id)
    case Some(c) =>
      && (forall outcome | Settles(b, step, id, outcome) :: IsSettled(b, after, id, c, outcome))
      && (!SomehowSettles(b, step, id) ==> StaysPending(t, b, after, id, c))
    case None =>
      if Taken(b, step, id) then IsMade(t, b, after, id, step.thread) else Untouched(b, after, id)
  }

  // ---- settling -----------------------------------------------------------------------------------------------

  /** One call finished, its closing logged: it is settled, and every other untouched. */
  lemma FinishDoes(t: Timing, b: Broker, id: string, outcome: Outcome, x: string)
    requires Inv(t, b) && Has(b.pending, id)
    ensures
      var c := Get(b.pending, id).value;
      var f := Finished(b, id, c, outcome);
      var after := f.(log := f.log + Closing(c.thread, id, c.issued, outcome));
      if x == id then IsSettled(b, after, id, c, outcome) else Untouched(b, after, x)
  {
    hide About, Closing, Opens, HostTools.Closes;
    var c := Get(b.pending, id).value;
    var s := Settlement(c.thread, outcome, c.issued, c.madeAt, b.now);
    assert IdOk(t, b, id);
    GetDelete(b.pending, id, x);
    GetAppend(b.settled, [(id, s)], x);
    AboutAppend(b.log, Closing(c.thread, id, c.issued, outcome), x);
    ClosingIsAbout(c.thread, id, c.issued, outcome, x);
  }

  lemma FailedIs(b: Broker, id: string, why: Why)
    requires Has(b.pending, id)
    ensures
      var c := Get(b.pending, id).value;
      var f := Finished(b, id, c, Unavailable(why));
      FailedCall(b, id, why) == f.(log := f.log + Closing(c.thread, id, c.issued, Unavailable(why)))
  {
    var c := Get(b.pending, id).value;
    Associate(b.log, if c.issued then [Emitted(c.thread, ToolCancel(id))] else [],
              [Emitted(c.thread, ToolUnavailable(id, if why.Detached? then "detached" else "timeout"))]);
  }

  /** A pending call an untouched step leaves as it was does follow its client, who has not moved. */
  lemma UntouchedFollows(t: Timing, b: Broker, after: Broker, id: string)
    requires Inv(t, b) && Has(b.pending, id) && Untouched(b, after, id) && after.attached == b.attached
    ensures StaysPending(t, b, after, id, Get(b.pending, id).value)
  {
    hide About, Opens, HostTools.Closes;
    assert IdOk(t, b, id);
    assert About(b.log, id) + [] == About(b.log, id);
  }

  lemma AnswerDoes(t: Timing, b: Broker, thread: string, id: string, success: bool, x: string)
    requires Inv(t, b)
    ensures Does(t, b, Answer(thread, id, success), Next(t, b, Answer(thread, id, success)), x)
  {
    hide About, Opens, HostTools.Closes, Inv, CallFollows;
    var step := Answer(thread, id, success);
    var after := Next(t, b, step);
    if CanAnswer(b, thread, id) {
      FinishDoes(t, b, id, Answered(success), x);
    }
    if x == id && CanAnswer(b, thread, id) {
      assert Settles(b, step, id, Answered(success));
    } else if Has(b.pending, x) {
      UntouchedFollows(t, b, after, x);
    }
  }

  lemma AbortDoes(t: Timing, b: Broker, id: string, x: string)
    requires Inv(t, b)
    ensures Does(t, b, Abort(id), Next(t, b, Abort(id)), x)
  {
    hide About, Opens, HostTools.Closes, Inv, CallFollows;
    var after := Next(t, b, Abort(id));
    if Has(b.pending, id) {
      FinishDoes(t, b, id, Canceled, x);
    }
    if x == id && Has(b.pending, id) {
      assert Settles(b, Abort(id), id, Canceled);
    } else if Has(b.pending, x) {
      UntouchedFollows(t, b, after, x);
    }
  }

  lemma TimerDoes(t: Timing, b: Broker, id: string, why: Why, x: string)
    requires Inv(t, b) && Has(b.pending, id)
    ensures
      var step := if why.Detached? then GraceFires(id) else AnswerTimerFires(id);
      Does(t, b, step, Next(t, b, step), x)
  {
    hide About, Opens, HostTools.Closes, Inv, CallFollows, FailedCall, Finished;
    var step := if why.Detached? then GraceFires(id) else AnswerTimerFires(id);
    var after := Next(t, b, step);
    FailedIs(b, id, why);
    FinishDoes(t, b, id, Unavailable(why), x);
    if x == id {
      assert Settles(b, step, id, Unavailable(why));
    } else if Has(b.pending, x) {
      FinishedFrame(b, id, Get(b.pending, id).value, Unavailable(why));
      UntouchedFollows(t, b, after, x);
    }
  }

  lemma FinishedFrame(b: Broker, id: string, c: Call, outcome: Outcome)
    ensures Finished(b, id, c, outcome).attached == b.attached
  {
  }

  // ---- cancelling several -------------------------------------------------------------------------------------

  predicate Meant(thread: Option<string>, c: Call) {
    thread == None || thread == Some(c.thread)
  }

  /** The calls of `m` are still pending as they were. */
  ghost predicate AllPending(b: Broker, m: Pairs<string, Call>) {
    forall id | Has(m, id) :: Get(b.pending, id) == Get(m, id)
  }

  lemma CancelOneDoes(t: Timing, b: Broker, id: string, x: string)
    requires Inv(t, b) && Has(b.pending, id)
    ensures
      var after := CanceledCall(b, id);
      && after.attached == b.attached && after.now == b.now
      && if x == id then IsSettled(b, after, id, Get(b.pending, id).value, Canceled) else Untouched(b, after, x)
  {
    hide About, Inv;
    FinishDoes(t, b, id, Canceled, x);
  }

  lemma {:induction false} CancelEachDoes(
      t: Timing, b: Broker, m: Pairs<string, Call>, thread: Option<string>, x: string)
    requires Inv(t, b) && Unique(m) && AllPending(b, m)
    ensures
      var after := CanceledEach(b, m, thread);
      && after.attached == b.attached
      && if Has(m, x) && Meant(thread, Get(m, x).value) then IsSettled(b, after, x, Get(m, x).value, Canceled)
         else Untouched(b, after, x)
    decreases |m|
  {
    hide About, Inv, Closing, CanceledCall;
    if m != [] {
      var id, c := m[0].0, m[0].1;
      assert Has(m, id) && Get(b.pending, id) == Some(c);
      var next := if Meant(thread, c) then CanceledCall(b, id) else b;
      if Meant(thread, c) {
        CancelOneDoes(t, b, id, x);
        StepKeepsInv(t, b, Abort(id)) by { AbortIsCancel(t, b, id); }
        AbortIsCancel(t, b, id);
      }
      forall y | Has(m[1..], y) ensures Get(next.pending, y) == Get(m[1..], y) {
        if Meant(thread, c) {
          CancelOneDoes(t, b, id, y);
        }
        assert y != id && Has(m, y);
      }
      CancelEachDoes(t, next, m[1..], thread, x);
    }
  }

  lemma AbortIsCancel(t: Timing, b: Broker, id: string)
    ensures Allowed(b, Abort(id)) && Next(t, b, Abort(id)) == CanceledCall(b, id)
  {
  }

  lemma CancelsDo(t: Timing, b: Broker, thread: Option<string>, x: string)
    requires Inv(t, b)
    ensures
      var step := if thread.Some? then CancelThread(thread.value) else Shutdown;
      Does(t, b, step, Next(t, b, step), x)
  {
    hide About, Opens, HostTools.Closes, CallFollows, CanceledEach, IdOk;
    var step := if thread.Some? then CancelThread(thread.value) else Shutdown;
    var after := Next(t, b, step);
    CancelEachDoes(t, b, b.pending, thread, x);
    if Has(b.pending, x) {
      if Meant(thread, Get(b.pending, x).value) {
        assert Settles(b, step, x, Canceled);
      } else {
        UntouchedFollows(t, b, after, x);
      }
    }
  }

  // ---- clients coming and going -------------------------------------------------------------------------------

  /** An attach tells the journal of exactly the thread's calls that were waiting. */
  lemma {:induction false} IssueIsAbout(thread: string, m: Pairs<string, Call>, id: string)
    requires Unique(m)
    ensures About(IssueEvents(thread, m), id)
         == Opening(thread, id, Has(m, id) && Get(m, id).value.thread == thread && !Get(m, id).value.issued)
  {
    hide About;
    if m == [] {
      AboutNone(id);
    } else {
      var first := Emitted(thread, ToolCall(m[0].0));
      var some := if m[0].1.thread == thread && !m[0].1.issued then [first] else [];
      AboutAppend(some, IssueEvents(thread, m[1..]), id);
      AboutOne(first, id);
      AboutNone(id);
      IssueIsAbout(thread, m[1..], id);
    }
  }

  /** Reattaching or detaching a thread: its calls follow, and no others move. */
  lemma AttachDoes(t: Timing, b: Broker, thread: string, on: bool, x: string)
    requires Core(t, b)
    ensures
      var after := AttachedSet(t, b, thread, on);
      match Get(b.pending, x)
      case Some(c) => StaysPending(t, b, after, x, c)
      case None => Untouched(b, after, x)
  {
    hide About, Opens, HostTools.Closes, ReseatedAll, IssueEvents;
    assert IdOk(t, b, x);
    assert About(b.log, x) + [] == About(b.log, x);
    ReseatedAllGet(t, b.now, thread, on, b.pending, x);
    IssueIsAbout(thread, b.pending, x);
    AboutAppend(b.log, IssueEvents(thread, b.pending), x);
  }

  lemma SeatsDo(t: Timing, b: Broker, step: Step, x: string)
    requires Inv(t, b) && (step.SetSeat? || step.SetManifest?)
    ensures Does(t, b, step, Next(t, b, step), x)
  {
    hide About, Opens, HostTools.Closes, IdOk, AttachedSet;
    assert Core(t, b);
    match step {
      case SetSeat(thread, holder) =>
        var c := b.(seats := if holder.Some? then b.seats[thread := holder.value] else b.seats - {thread});
        CoreFrame(t, b, c);
        AttachDoes(t, c, thread, ShouldBeAttached(c, thread), x);
      case SetManifest(thread, m, owner) =>
        var c := b.(manifests := b.manifests[thread := m]);
        CoreFrame(t, b, c);
        if owner.Some? {
          var d := c.(owners := c.owners[thread := owner.value]);
          CoreFrame(t, b, d);
          AttachDoes(t, d, thread, ShouldBeAttached(d, thread), x);
        } else if Has(b.pending, x) {
          UntouchedFollows(t, b, c, x);
        }
    }
  }

  // ---- making a call ------------------------------------------------------------------------------------------

  lemma MakeDoes(t: Timing, b: Broker, step: Step, x: string)
    requires Inv(t, b) && step.MakeCall? && Allowed(b, step)
    ensures Does(t, b, step, Next(t, b, step), x)
  {
    hide About, Opens, HostTools.Closes, OpenCalls, Unique, IdOk, Put, CallFollows, StaysPending;
    var after := Next(t, b, step);
    var made := Call(step.thread, b.now, false, None, None);
    var e := Emitted(step.thread, ToolCall(step.id));
    GetPut(b.pending, step.id, Issued(t, b.now, made), x);
    GetPut(b.pending, step.id, made.(graceAt := Some(b.now + t.graceMs)), x);
    AboutAppend(b.log, [e], x);
    AboutOne(e, x);
    assert About(b.log, x) + [] == About(b.log, x);
    if Has(b.pending, x) {
      UntouchedFollows(t, b, after, x);
    }
  }

  lemma TickDoes(t: Timing, b: Broker, to: int, x: string)
    requires Inv(t, b)
    ensures Does(t, b, Tick(to), Next(t, b, Tick(to)), x)
  {
    hide About, Inv;
    if Has(b.pending, x) {
      UntouchedFollows(t, b, b.(now := to), x);
    }
  }

  /** Every step, every call: exactly this is done to it. */
  lemma StepDoes(t: Timing, b: Broker, step: Step, x: string)
    requires Inv(t, b) && Allowed(b, step)
    ensures Does(t, b, step, Next(t, b, step), x)
  {
    hide Inv, Does, Next;
    match step {
      case SetSeat(_, _) => SeatsDo(t, b, step, x);
      case SetManifest(_, _, _) => SeatsDo(t, b, step, x);
      case MakeCall(_, _, _, _, _, _) => MakeDoes(t, b, step, x);
      case Answer(thread, id, success) => AnswerDoes(t, b, thread, id, success, x);
      case Abort(id) => AbortDoes(t, b, id, x);
      case CancelThread(thread) => CancelsDo(t, b, Some(thread), x);
      case Shutdown => CancelsDo(t, b, None, x);
      case Tick(to) => TickDoes(t, b, to, x);
      case GraceFires(id) => TimerDoes(t, b, id, Detached, x);
      case AnswerTimerFires(id) => TimerDoes(t, b, id, Timeout, x);
    }
  }

  // ---- whole runs ---------------------------------------------------------------------------------------------

  function After(t: Timing, b: Broker, steps: seq<Step>): Broker
    decreases |steps|
  {
    if steps == [] then b else After(t, Next(t, b, steps[0]), steps[1..])
  }

  lemma {:induction false} RunEndsAfter(t: Timing, b: Broker, steps: seq<Step>, end: Broker)
    requires IsRun(t, b, steps, end)
    ensures After(t, b, steps) == end
    decreases |steps|
  {
    hide Next, Allowed;
    if steps != [] {
      RunEndsAfter(t, Next(t, b, steps[0]), steps[1..], end);
    }
  }

  /** All the journal is ever told of a call, from how it stands. */
  ghost predicate ToldRight(b: Broker, id: string) {
    match Get(b.pending, id)
    case Some(c) => About(b.log, id) == Opening(c.thread, id, c.issued)
    case None =>
      match Get(b.settled, id)
      case Some(s) => About(b.log, id) == Opening(s.thread, id, s.issued) + Closing(s.thread, id, s.issued, s.outcome)
      case None => About(b.log, id) == []
  }

  lemma SettledIsNotPending(t: Timing, b: Broker, id: string)
    requires Inv(t, b)
    ensures Has(b.settled, id) ==> !Has(b.pending, id)
  {
    assert IdOk(t, b, id);
  }

  lemma StepTellsRight(t: Timing, b: Broker, step: Step, id: string)
    requires Inv(t, b) && Allowed(b, step) && ToldRight(b, id)
    ensures ToldRight(Next(t, b, step), id)
  {
    hide Inv, Next, About, Closing;
    StepDoes(t, b, step, id);
    SettledIsNotPending(t, b, id);
    FreshId(b, step);
    assert Opening("", id, false) + [] == [];
    if Has(b.pending, id) && SomehowSettles(b, step, id) {
      var outcome :| Settles(b, step, id, outcome);
    }
  }

  lemma FreshId(b: Broker, step: Step)
    requires Allowed(b, step)
    ensures step.MakeCall? ==> !Has(b.settled, step.id)
  {
  }

  /** After a step the call is settled with this outcome exactly if it was before, or the step settles it so. */
  lemma StepSettlesIff(t: Timing, b: Broker, step: Step, id: string, outcome: Outcome)
    requires Inv(t, b) && Allowed(b, step)
    ensures SettledWith(Next(t, b, step), id, outcome) <==> SettledWith(b, id, outcome) || Settles(b, step, id, outcome)
  {
    hide Inv, Next, About, Closing;
    StepDoes(t, b, step, id);
    SettledIsNotPending(t, b, id);
    if Has(b.pending, id) && SomehowSettles(b, step, id) {
      var how :| Settles(b, step, id, how);
    }
  }

  predicate SettledWith(b: Broker, id: string, outcome: Outcome) {
    Has(b.settled, id) && Get(b.settled, id).value.outcome == outcome
  }

  /** Step `k` of the run settles the call with this outcome. */
  ghost predicate SettlesAt(t: Timing, b: Broker, steps: seq<Step>, k: nat, id: string, outcome: Outcome) {
    k < |steps| && Settles(After(t, b, steps[..k]), steps[k], id, outcome)
  }

  lemma SettlesLater(t: Timing, b: Broker, steps: seq<Step>, k: nat, id: string, outcome: Outcome)
    requires steps != []
    ensures SettlesAt(t, b, steps, k + 1, id, outcome) <==> SettlesAt(t, Next(t, b, steps[0]), steps[1..], k, id, outcome)
    ensures SettlesAt(t, b, steps, 0, id, outcome) <==> Settles(b, steps[0], id, outcome)
  {
    hide Next, Settles;
    if k < |steps[1..]| {
      assert steps[..k + 1][0] == steps[0] && steps[..k + 1][1..] == steps[1..][..k];
    }
    assert steps[..0] == [];
  }

  lemma {:induction false} SettledIffSettles(
      t: Timing, b: Broker, steps: seq<Step>, end: Broker, id: string, outcome: Outcome)
    requires Inv(t, b) && IsRun(t, b, steps, end)
    ensures SettledWith(end, id, outcome)
            <==> SettledWith(b, id, outcome) || exists k: nat :: SettlesAt(t, b, steps, k, id, outcome)
    decreases |steps|
  {
    hide Inv, Next, Allowed, Settles, SettlesAt;
    if steps == [] {
      forall k: nat ensures !SettlesAt(t, b, steps, k, id, outcome) {
        NothingSettles(t, b, k, id, outcome);
      }
    } else {
      var next := Next(t, b, steps[0]);
      StepKeepsInv(t, b, steps[0]);
      StepSettlesIff(t, b, steps[0], id, outcome);
      SettledIffSettles(t, next, steps[1..], end, id, outcome);
      if k: nat :| SettlesAt(t, next, steps[1..], k, id, outcome) {
        SettlesLater(t, b, steps, k, id, outcome);
      }
      if k: nat :| SettlesAt(t, b, steps, k, id, outcome) {
        SettlesLater(t, b, steps, if k > 0 then k - 1 else 0, id, outcome);
      }
      SettlesLater(t, b, steps, 0, id, outcome);
    }
  }

  lemma NothingSettles(t: Timing, b: Broker, k: nat, id: string, outcome: Outcome)
    ensures !SettlesAt(t, b, [], k, id, outcome)
  {
  }

  /**
   * Over every run a call is settled with an outcome if and only if some step of it settles it so: answered, as the
   * client said, by an answer from its thread after it was issued; cancelled by an abort, by its thread's cancellation or
   * by the shutdown; unavailable, as detached or timed out, by the timer that fired.
   */
  lemma OutcomesHaveCauses(t: Timing, steps: seq<Step>, end: Broker, id: string, outcome: Outcome)
    requires IsRun(t, START, steps, end)
    ensures SettledWith(end, id, outcome) <==> exists k: nat :: SettlesAt(t, START, steps, k, id, outcome)
  {
    hide SettlesAt, IsRun;
    StartInv(t);
    SettledIffSettles(t, START, steps, end, id, outcome);
  }

  lemma {:induction false} RunTellsRight(t: Timing, b: Broker, steps: seq<Step>, end: Broker, id: string)
    requires Inv(t, b) && IsRun(t, b, steps, end) && ToldRight(b, id)
    ensures ToldRight(end, id)
    decreases |steps|
  {
    hide Inv, Next, Allowed, ToldRight;
    if steps != [] {
      StepKeepsInv(t, b, steps[0]);
      StepTellsRight(t, b, steps[0], id);
      RunTellsRight(t, Next(t, b, steps[0]), steps[1..], end, id);
    }
  }

  /**
   * Over every run all that the journal is told of a call is its opening, if it was issued, and once it is settled the
   * closing that goes with its outcome, on its own thread.
   */
  lemma JournalTellsOutcome(t: Timing, steps: seq<Step>, end: Broker, id: string)
    requires IsRun(t, START, steps, end)
    ensures ToldRight(end, id)
  {
    hide IsRun, About;
    StartInv(t);
    AboutNone(id);
    RunTellsRight(t, START, steps, end, id);
  }

  /** The calls at these places are the thread's waiting ones, and these are the events that open them. */
  ghost predicate IssuedAt(thread: string, m: Pairs<string, Call>, events: seq<Emitted>, at: seq<nat>) {
    && Ascending(at) && |events| == |at|
    && (forall k | 0 <= k < |at| :: at[k] < |m| && events[k] == Emitted(thread, ToolCall(m[at[k]].0)))
    && (forall i | 0 <= i < |m| :: i in at <==> m[i].1.thread == thread && !m[i].1.issued)
  }

  lemma OneMoreIssued(thread: string, m: Pairs<string, Call>, call: (string, Call), events: seq<Emitted>, at: seq<nat>)
    requires IssuedAt(thread, m, events, at)
    ensures
      if call.1.thread == thread && !call.1.issued
      then IssuedAt(thread, m + [call], events + [Emitted(thread, ToolCall(call.0))], at + [|m|])
      else IssuedAt(thread, m + [call], events, at)
  {
    var more := m + [call];
    var places := if call.1.thread == thread && !call.1.issued then at + [|m|] else at;
    forall i | 0 <= i < |more| ensures i in places <==> more[i].1.thread == thread && !more[i].1.issued {
      if i < |m| {
        assert more[i] == m[i];
      } else {
        assert i !in at;
      }
    }
  }

  /** An attach opens the waiting calls in the order they were made. */
  lemma {:induction false} IssuesInOrder(thread: string, m: Pairs<string, Call>) returns (at: seq<nat>)
    ensures IssuedAt(thread, m, IssueEvents(thread, m), at)
    decreases |m|
  {
    hide IssuedAt, IssueEvents;
    if m == [] {
      at := [];
      NoneIssued(thread);
    } else {
      var n := |m| - 1;
      var before := IssuesInOrder(thread, m[..n]);
      OneMoreIssued(thread, m[..n], m[n], IssueEvents(thread, m[..n]), before);
      assert m == m[..n] + [m[n]];
      IssueEventsAppend(thread, m[..n], [m[n]]);
      IssueOne(thread, m[n]);
      assert IssueEvents(thread, m[..n]) + [] == IssueEvents(thread, m[..n]);
      at := if m[n].1.thread == thread && !m[n].1.issued then before + [n] else before;
    }
  }

  lemma NoneIssued(thread: string)
    ensures IssuedAt(thread, [], IssueEvents(thread, []), [])
  {
  }

  lemma IssueOne(thread: string, call: (string, Call))
    ensures IssueEvents(thread, [call])
         == if call.1.thread == thread && !call.1.issued then [Emitted(thread, ToolCall(call.0))] else []
  {
    assert [call][1..] == [];
  }

  // ---- refusals and seats -------------------------------------------------------------------------------------

  /** How many calls of a thread are open. */
  lemma {:induction false} OpenCallsCounts(m: Pairs<string, Call>, thread: string)
    ensures OpenCalls(m, thread) == |set i: nat | i < |m| && m[i].1.thread == thread|
    decreases |m|
  {
    if m != [] {
      var n := |m| - 1;
      assert m == m[..n] + [m[n]];
      OpenCallsAppend(m[..n], m[n].0, m[n].1, thread);
      OpenCallsCounts(m[..n], thread);
      var before := set i: nat | i < n && m[..n][i].1.thread == thread;
      var now := set i: nat | i < |m| && m[i].1.thread == thread;
      assert now == if m[n].1.thread == thread then before + {n} else before;
    }
  }

  /** Why a call is turned away, each reason before the next: not offered, bad input, eight open already, aborted. */
  lemma RefusedBecause(b: Broker, id: string, thread: string, server: string, tool: string, bad: bool, aborted: bool)
    ensures
      var r := Refused(b, thread, server, tool, bad, aborted);
      && (r == None <==> Taken(b, MakeCall(id, thread, server, tool, bad, aborted), id))
      && (r == Some(NotOffered) <==> !Offers(b, thread, server, tool))
      && (r == Some(BadInput) <==> Offers(b, thread, server, tool) && bad)
      && (r == Some(TooMany) <==> Offers(b, thread, server, tool) && !bad && OpenCalls(b.pending, thread) >= 8)
  {
  }

  /** Seats, owners and manifests change only as told, and only for the thread told of. */
  lemma SeatsAsTold(t: Timing, b: Broker, step: Step)
    requires Inv(t, b) && Allowed(b, step)
    ensures
      var after := Next(t, b, step);
      match step
      case SetSeat(thread, holder) =>
        && (if holder.Some? then thread in after.seats && after.seats[thread] == holder.value else thread !in after.seats)
        && (forall x | x != thread :: x in after.seats <==> x in b.seats)
        && (forall x | x != thread && x in b.seats :: after.seats[x] == b.seats[x])
        && after.owners == b.owners && after.manifests == b.manifests
      case SetManifest(thread, m, owner) =>
        && after.manifests == b.manifests[thread := m] && after.seats == b.seats
        && after.owners == (if owner.Some? then b.owners[thread := owner.value] else b.owners)
      case _ => after.seats == b.seats && after.owners == b.owners
  {
    hide Inv, IdOk;
    match step {
      case SetSeat(_, _) =>
      case SetManifest(_, _, _) =>
      case _ => CallStepFrame(t, b, step);
    }
  }
}
