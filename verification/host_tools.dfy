/**
 * The host-tool broker (`daemon/hostTools.ts`): the daemon's half of a proxied tool call. Calls wait for the
 * thread's controlling client, are issued to it, and are answered, cancelled or failed by one of two deadlines.
 *
 * Timers are deadlines on the calls and time moves by `Tick`, never past a deadline that is due; `emit` appends to
 * `log`. `Broker` is the state as a value with one function per operation; class `HostToolBroker` is the object.
 */
module HostTools {
  import opened Common
  import opened Wire
  import opened OrderedMap

  const MAX_CONCURRENT_CALLS_PER_THREAD: nat := 8

  datatype Timing = Timing(graceMs: nat, timeoutMs: nat)

  type Manifest = map<string, set<string>>

  /** `madeAt` is when the call was made; the broker itself never reads it. */
  datatype Call = Call(thread: string, madeAt: int, issued: bool, graceAt: Option<int>, answerAt: Option<int>)

  datatype Why = Detached | Timeout

  datatype Outcome = Answered(success: bool) | Unavailable(why: Why) | Canceled

  /** How a call's promise was settled. */
  datatype Settlement = Settlement(thread: string, outcome: Outcome, issued: bool, madeAt: int, at: int)

  datatype Emitted = Emitted(thread: string, event: WireEvent)

  datatype Refusal = NotOffered | BadInput | TooMany | AlreadyAborted

  datatype Broker = Broker(
    now: int, attached: set<string>, seats: map<string, nat>, owners: map<string, nat>,
    manifests: map<string, Manifest>, pending: Pairs<string, Call>, log: seq<Emitted>,
    settled: Pairs<string, Settlement>)

  // ---- attach state as functions ------------------------------------------------------------------------------

  function Issued(t: Timing, now: int, c: Call): Call {
    c.(issued := true, answerAt := Some(now + t.timeoutMs))
  }

  /** What a call becomes when its thread gains (or loses) its client. */
  function Reseated(t: Timing, now: int, attached: bool, c: Call): Call {
    if attached then
      var d := c.(graceAt := None);
      if d.issued then d else Issued(t, now, d)
    else if c.issued && c.graceAt.None? then c.(graceAt := Some(now + t.graceMs)) else c
  }

  function ReseatedAll(t: Timing, now: int, thread: string, attached: bool, m: Pairs<string, Call>): Pairs<string, Call> {
    if m == [] then [] else
      [(m[0].0, if m[0].1.thread == thread then Reseated(t, now, attached, m[0].1) else m[0].1)]
      + ReseatedAll(t, now, thread, attached, m[1..])
  }

  /** The `tool.call` events an attach emits, in the order the calls were made. */
  function IssueEvents(thread: string, m: Pairs<string, Call>): seq<Emitted> {
    if m == [] then [] else
      (if m[0].1.thread == thread && !m[0].1.issued then [Emitted(thread, ToolCall(m[0].0))] else [])
      + IssueEvents(thread, m[1..])
  }

  function AttachedSet(t: Timing, b: Broker, thread: string, attached: bool): Broker {
    if attached == (thread in b.attached) then b else
      b.(attached := if attached then b.attached + {thread} else b.attached - {thread},
         pending := ReseatedAll(t, b.now, thread, attached, b.pending),
         log := if attached then b.log + IssueEvents(thread, b.pending) else b.log)
  }

  /** Whether the holder of the seat is also the one whose manifest is in force. */
  predicate ShouldBeAttached(b: Broker, thread: string) {
    thread in b.seats && thread in b.owners && b.seats[thread] == b.owners[thread]
  }

  function Reconciled(t: Timing, b: Broker, thread: string): Broker {
    AttachedSet(t, b, thread, ShouldBeAttached(b, thread))
  }

  function Seated(t: Timing, b: Broker, thread: string, holder: Option<nat>): Broker {
    Reconciled(t, b.(seats := if holder.Some? then b.seats[thread := holder.value] else b.seats - {thread}), thread)
  }

  function ManifestSet(t: Timing, b: Broker, thread: string, m: Manifest, owner: Option<nat>): Broker {
    var c := b.(manifests := b.manifests[thread := m]);
    if owner.Some? then Reconciled(t, c.(owners := c.owners[thread := owner.value]), thread) else c
  }

  // ---- calls as functions -------------------------------------------------------------------------------------

  predicate IsResourceTool(tool: string) {
    tool in {"resources/list", "resources/templates/list", "resources/read"}
  }

  predicate Offered(b: Broker, thread: string, server: string, tool: string) {
    && thread in b.manifests && server in b.manifests[thread]
    && if IsResourceTool(tool) then server != "claude_threads" else tool in b.manifests[thread][server]
  }

  function OpenCalls(m: Pairs<string, Call>, thread: string): nat {
    if m == [] then 0 else (if m[0].1.thread == thread then 1 else 0) + OpenCalls(m[1..], thread)
  }

  /** Why a call is turned away at once, if it is. */
  function Refused(b: Broker, thread: string, server: string, tool: string, badInput: bool, aborted: bool): Option<Refusal> {
    if !Offered(b, thread, server, tool) then Some(NotOffered)
    else if badInput then Some(BadInput)
    else if OpenCalls(b.pending, thread) >= MAX_CONCURRENT_CALLS_PER_THREAD then Some(TooMany)
    else if aborted then Some(AlreadyAborted)
    else None
  }

  function Called(t: Timing, b: Broker, id: string, thread: string): Broker {
    var c := Call(thread, b.now, false, None, None);
    if thread in b.attached then
      b.(pending := Put(b.pending, id, Issued(t, b.now, c)), log := b.log + [Emitted(thread, ToolCall(id))])
    else b.(pending := Put(b.pending, id, c.(graceAt := Some(b.now + t.graceMs))))
  }

  function Finished(b: Broker, id: string, c: Call, outcome: Outcome): Broker {
    b.(pending := Delete(b.pending, id),
       settled := b.settled + [(id, Settlement(c.thread, outcome, c.issued, c.madeAt, b.now))])
  }

  /** A waiting call is not answered before it was issued, nor from another thread. */
  predicate CanAnswer(b: Broker, thread: string, id: string) {
    var c := Get(b.pending, id);
    c.Some? && c.value.thread == thread && c.value.issued
  }

  function ResolvedCall(b: Broker, thread: string, id: string, success: bool): Broker {
    if !CanAnswer(b, thread, id) then b else
      var f := Finished(b, id, Get(b.pending, id).value, Answered(success));
      f.(log := f.log + [Emitted(thread, RequestResolved(id, "resolved"))])
  }

  function FailedCall(b: Broker, id: string, why: Why): Broker {
    match Get(b.pending, id)
    case None => b
    case Some(c) =>
      var f := Finished(b, id, c, Unavailable(why));
      var reason := if why.Detached? then "detached" else "timeout";
      f.(log := f.log + (if c.issued then [Emitted(c.thread, ToolCancel(id))] else [])
                      + [Emitted(c.thread, ToolUnavailable(id, reason))])
  }

  function CanceledCall(b: Broker, id: string): Broker {
    match Get(b.pending, id)
    case None => b
    case Some(c) =>
      var f := Finished(b, id, c, Canceled);
      f.(log := f.log + if c.issued then [Emitted(c.thread, ToolCancel(id))] else [])
  }

  /** Cancel, in order, those of the calls in `m` that belong to the thread (all of them when it is `None`). */
  function CanceledEach(b: Broker, m: Pairs<string, Call>, thread: Option<string>): Broker
    decreases |m|
  {
    if m == [] then b
    else CanceledEach(if thread == None || thread == Some(m[0].1.thread) then CanceledCall(b, m[0].0) else b, m[1..], thread)
  }

  // ---- the state machine --------------------------------------------------------------------------------------

  datatype Step =
    | SetSeat(thread: string, holder: Option<nat>)
    | SetManifest(thread: string, manifest: Manifest, owner: Option<nat>)
    | MakeCall(id: string, thread: string, server: string, tool: string, badInput: bool, aborted: bool)
    | Answer(thread: string, id: string, success: bool)
    | Abort(id: string)
    | CancelThread(thread: string)
    | Shutdown
    | Tick(to: int)
    | GraceFires(id: string)
    | AnswerTimerFires(id: string)

  /** Every deadline of the call is still ahead of `time`, or exactly at it. */
  predicate NotOverdue(c: Call, time: int) {
    && (c.graceAt.Some? ==> time <= c.graceAt.value)
    && (c.answerAt.Some? ==> time <= c.answerAt.value)
  }

  /** Call ids are fresh; a timer fires when its deadline is reached, and time does not pass a pending deadline. */
  ghost predicate Allowed(b: Broker, step: Step) {
    match step
    case MakeCall(id, _, _, _, _, _) => !Has(b.pending, id) && !Has(b.settled, id)
    case Tick(to) => b.now <= to && forall id | Has(b.pending, id) :: NotOverdue(Get(b.pending, id).value, to)
    case GraceFires(id) => Has(b.pending, id) && Get(b.pending, id).value.graceAt == Some(b.now)
    case AnswerTimerFires(id) => Has(b.pending, id) && Get(b.pending, id).value.answerAt == Some(b.now)
    case _ => true
  }

  function Next(t: Timing, b: Broker, step: Step): Broker {
    match step
    case SetSeat(thread, holder) => Seated(t, b, thread, holder)
    case SetManifest(thread, m, owner) => ManifestSet(t, b, thread, m, owner)
    case MakeCall(id, thread, server, tool, bad, aborted) =>
      if Refused(b, thread, server, tool, bad, aborted).Some? then b else Called(t, b, id, thread)
    case Answer(thread, id, success) => ResolvedCall(b, thread, id, success)
    case Abort(id) => CanceledCall(b, id)
    case CancelThread(thread) => CanceledEach(b, b.pending, Some(thread))
    case Shutdown => CanceledEach(b, b.pending, None)
    case Tick(to) => b.(now := to)
    case GraceFires(id) => FailedCall(b, id, Detached)
    case AnswerTimerFires(id) => FailedCall(b, id, Timeout)
  }

  // ---- counting events in the journal -------------------------------------------------------------------------

  function Opens(log: seq<Emitted>, id: string): nat {
    if log == [] then 0 else
      Opens(log[..|log| - 1], id) + (if log[|log| - 1].event == ToolCall(id) then 1 else 0)
  }

  predicate ClosesCall(e: WireEvent, id: string) {
    e == ToolCancel(id) || (e.RequestResolved? && e.requestId == id)
  }

  function Closes(log: seq<Emitted>, id: string): nat {
    if log == [] then 0 else
      Closes(log[..|log| - 1], id) + (if ClosesCall(log[|log| - 1].event, id) then 1 else 0)
  }

  /** Events that open or close the call are on its own thread's journal. */
  ghost predicate OnThread(log: seq<Emitted>, id: string, thread: string) {
    forall i | 0 <= i < |log| ::
      log[i].event == ToolCall(id) || ClosesCall(log[i].event, id) ==> log[i].thread == thread
  }

  lemma OpensSnoc(log: seq<Emitted>, e: Emitted, id: string)
    ensures Opens(log + [e], id) == Opens(log, id) + if e.event == ToolCall(id) then 1 else 0
    ensures Closes(log + [e], id) == Closes(log, id) + if ClosesCall(e.event, id) then 1 else 0
  {
    assert (log + [e])[..|log|] == log;
  }

  // ---- the invariant ------------------------------------------------------------------------------------------

  /** The deadlines of an open call, given whether its thread is attached. */
  ghost predicate CallOk(t: Timing, now: int, attached: bool, c: Call) {
    && (attached ==> c.issued && c.graceAt.None?)
    && (!attached ==> c.graceAt.Some?)
    && (c.issued <==> c.answerAt.Some?)
    && (!c.issued ==> c.graceAt == Some(c.madeAt + t.graceMs))
    && (c.issued ==> c.answerAt.value <= c.madeAt + t.graceMs + t.timeoutMs)
    && c.madeAt <= now && NotOverdue(c, now)
  }

  function One(b: bool): nat { if b then 1 else 0 }

  ghost predicate IdOk(t: Timing, b: Broker, id: string) {
    match Get(b.pending, id)
    case Some(c) =>
      && CallOk(t, b.now, c.thread in b.attached, c)
      && !Has(b.settled, id)
      && Opens(b.log, id) == One(c.issued) && Closes(b.log, id) == 0 && OnThread(b.log, id, c.thread)
    case None =>
      match Get(b.settled, id)
      case Some(s) =>
        && s.madeAt <= s.at <= b.now && s.at <= s.madeAt + t.graceMs + t.timeoutMs
        && Opens(b.log, id) == Closes(b.log, id) == One(s.issued) && OnThread(b.log, id, s.thread)
      case None => Opens(b.log, id) == 0 && Closes(b.log, id) == 0
  }

  ghost predicate Inv(t: Timing, b: Broker) {
    && Unique(b.pending) && Unique(b.settled)
    && (forall id :: IdOk(t, b, id))
    && (forall thread :: OpenCalls(b.pending, thread) <= MAX_CONCURRENT_CALLS_PER_THREAD)
    && (forall thread :: thread in b.attached <==> ShouldBeAttached(b, thread))
  }

  // ---- attach and detach --------------------------------------------------------------------------------------

  lemma {:induction false} ReseatedAllGet(t: Timing, now: int, thread: string, attached: bool, m: Pairs<string, Call>, id: string)
    ensures
      Get(ReseatedAll(t, now, thread, attached, m), id) ==
        match Get(m, id)
        case None => None
        case Some(c) => Some(if c.thread == thread then Reseated(t, now, attached, c) else c)
  {
    if m != [] {
      ReseatedAllGet(t, now, thread, attached, m[1..], id);
    }
  }

  lemma {:induction false} ReseatedAllUnique(t: Timing, now: int, thread: string, attached: bool, m: Pairs<string, Call>)
    requires Unique(m)
    ensures Unique(ReseatedAll(t, now, thread, attached, m))
  {
    if m != [] {
      ReseatedAllUnique(t, now, thread, attached, m[1..]);
      ReseatedAllGet(t, now, thread, attached, m[1..], m[0].0);
    }
  }

  lemma {:induction false} ReseatedAllOpen(t: Timing, now: int, thread: string, attached: bool, m: Pairs<string, Call>, other: string)
    ensures OpenCalls(ReseatedAll(t, now, thread, attached, m), other) == OpenCalls(m, other)
  {
    if m != [] {
      ReseatedAllOpen(t, now, thread, attached, m[1..], other);
    }
  }

  /** An attach opens, in the journal, exactly the thread's calls that were waiting. */
  lemma {:induction false} IssueEventsOpen(thread: string, log: seq<Emitted>, m: Pairs<string, Call>, id: string)
    requires Unique(m)
    ensures
      var waiting := Has(m, id) && Get(m, id).value.thread == thread && !Get(m, id).value.issued;
      Opens(log + IssueEvents(thread, m), id) == Opens(log, id) + One(waiting)
    ensures Closes(log + IssueEvents(thread, m), id) == Closes(log, id)
    decreases |m|
  {
    if m == [] {
      assert log + IssueEvents(thread, m) == log;
    } else {
      var first := Emitted(thread, ToolCall(m[0].0));
      if m[0].1.thread == thread && !m[0].1.issued {
        OpensSnoc(log, first, id);
        IssueEventsOpen(thread, log + [first], m[1..], id);
        assert log + IssueEvents(thread, m) == log + [first] + IssueEvents(thread, m[1..]);
      } else {
        IssueEventsOpen(thread, log, m[1..], id);
        assert IssueEvents(thread, m) == IssueEvents(thread, m[1..]);
      }
    }
  }

  lemma {:induction false} IssueEventsOn(thread: string, m: Pairs<string, Call>)
    ensures forall e | e in IssueEvents(thread, m) :: e.thread == thread && e.event.ToolCall?
    ensures forall e | e in IssueEvents(thread, m) :: Has(m, e.event.callId)
  {
    if m != [] {
      IssueEventsOn(thread, m[1..]);
    }
  }

  /** The invariant without the attach rule, which a change of seat or manifest breaks until it is reconciled. */
  ghost predicate Core(t: Timing, b: Broker) {
    && Unique(b.pending) && Unique(b.settled)
    && (forall id :: IdOk(t, b, id))
    && (forall thread :: OpenCalls(b.pending, thread) <= MAX_CONCURRENT_CALLS_PER_THREAD)
  }

  /** Events that do not mention the call change nothing about it. */
  lemma {:induction false} Unmentioned(log: seq<Emitted>, more: seq<Emitted>, id: string)
    requires forall i | 0 <= i < |more| :: more[i].event != ToolCall(id) && !ClosesCall(more[i].event, id)
    ensures Opens(log + more, id) == Opens(log, id) && Closes(log + more, id) == Closes(log, id)
    ensures forall thread :: OnThread(log, id, thread) ==> OnThread(log + more, id, thread)
    decreases |more|
  {
    if more == [] {
      assert log + more == log;
    } else {
      OpensSnoc(log, more[0], id);
      Unmentioned(log + [more[0]], more[1..], id);
      assert log + [more[0]] + more[1..] == log + more;
    }
  }

  lemma AttachKeepsId(t: Timing, b: Broker, thread: string, attached: bool, id: string)
    requires Unique(b.pending) && IdOk(t, b, id) && attached != (thread in b.attached)
    ensures IdOk(t, AttachedSet(t, b, thread, attached), id)
  {
    var b' := AttachedSet(t, b, thread, attached);
    ReseatedAllGet(t, b.now, thread, attached, b.pending, id);
    if attached {
      IssueEventsOpen(thread, b.log, b.pending, id);
      IssueEventsOn(thread, b.pending);
      var more := IssueEvents(thread, b.pending);
      if Get(b.pending, id).None? {
        forall i | 0 <= i < |more|
          ensures more[i].event != ToolCall(id) && !ClosesCall(more[i].event, id)
        {
          assert more[i] in more;
        }
        Unmentioned(b.log, more, id);
      } else {
        var c := Get(b.pending, id).value;
        IssueEventsFor(thread, b.pending, id);
        OnThreadAppend(b.log, more, id, c.thread);
      }
    }
  }

  /** An attach mentions a call only when it is one of the thread's own. */
  lemma {:induction false} IssueEventsFor(thread: string, m: Pairs<string, Call>, id: string)
    requires Unique(m) && Has(m, id)
    ensures forall e | e in IssueEvents(thread, m) ::
      e.event.ToolCall? && (e.event.callId == id ==> e.thread == Get(m, id).value.thread)
  {
    if m[0].0 == id {
      IssueEventsOn(thread, m[1..]);
    } else {
      IssueEventsFor(thread, m[1..], id);
    }
  }

  lemma OnThreadAppend(log: seq<Emitted>, more: seq<Emitted>, id: string, thread: string)
    requires OnThread(log, id, thread)
    requires forall e | e in more :: e.event.ToolCall? && (e.event.callId == id ==> e.thread == thread)
    ensures OnThread(log + more, id, thread)
  {
    forall i | 0 <= i < |log + more| && ((log + more)[i].event == ToolCall(id) || ClosesCall((log + more)[i].event, id))
      ensures (log + more)[i].thread == thread
    {
      if i >= |log| {
        assert (log + more)[i] == more[i - |log|];
        assert more[i - |log|] in more;
      }
    }
  }

  lemma AttachKeepsCore(t: Timing, b: Broker, thread: string, attached: bool)
    requires Core(t, b)
    ensures Core(t, AttachedSet(t, b, thread, attached))
  {
    if attached != (thread in b.attached) {
      hide IdOk;
      ReseatedAllUnique(t, b.now, thread, attached, b.pending);
      forall id
        ensures IdOk(t, AttachedSet(t, b, thread, attached), id)
      {
        AttachKeepsId(t, b, thread, attached, id);
      }
      forall other
        ensures OpenCalls(AttachedSet(t, b, thread, attached).pending, other) <= MAX_CONCURRENT_CALLS_PER_THREAD
      {
        ReseatedAllOpen(t, b.now, thread, attached, b.pending, other);
      }
    }
  }

  // ---- calls --------------------------------------------------------------------------------------------------

  lemma {:induction false} OpenCallsAppend(m: Pairs<string, Call>, id: string, c: Call, thread: string)
    ensures OpenCalls(m + [(id, c)], thread) == OpenCalls(m, thread) + One(c.thread == thread)
  {
    if m == [] {
      assert ([(id, c)])[1..] == [];
      assert m + [(id, c)] == [(id, c)];
    } else {
      assert (m + [(id, c)])[1..] == m[1..] + [(id, c)];
      OpenCallsAppend(m[1..], id, c, thread);
    }
  }

  lemma {:induction false} OpenCallsDelete(m: Pairs<string, Call>, id: string, thread: string)
    ensures OpenCalls(Delete(m, id), thread) <= OpenCalls(m, thread)
  {
    if m != [] && m[0].0 != id {
      OpenCallsDelete(m[1..], id, thread);
    }
  }

  lemma CallKeepsCore(t: Timing, b: Broker, id: string, thread: string)
    requires Core(t, b) && !Has(b.pending, id) && !Has(b.settled, id)
    requires OpenCalls(b.pending, thread) < MAX_CONCURRENT_CALLS_PER_THREAD
    ensures Core(t, Called(t, b, id, thread))
  {
    hide Opens, Closes, Unique, Put;
    var b' := Called(t, b, id, thread);
    var made := Call(thread, b.now, false, None, None);
    var c := if thread in b.attached then Issued(t, b.now, made) else made.(graceAt := Some(b.now + t.graceMs));
    PutNew(b.pending, id, c);
    PutUnique(b.pending, id, c);
    forall x
      ensures IdOk(t, b', x)
    {
      GetPut(b.pending, id, c, x);
      OpensSnoc(b.log, Emitted(thread, ToolCall(id)), x);
      assert IdOk(t, b, x);
      if x == id {
        NotMentioned(b.log, id, thread);
      }
    }
    forall other
      ensures OpenCalls(b'.pending, other) <= MAX_CONCURRENT_CALLS_PER_THREAD
    {
      OpenCallsAppend(b.pending, id, c, other);
    }
  }

  /** A call no event mentions is on whatever thread one likes. */
  lemma {:induction false} NotMentioned(log: seq<Emitted>, id: string, thread: string)
    requires Opens(log, id) == 0 && Closes(log, id) == 0
    ensures OnThread(log, id, thread)
  {
    if log != [] {
      NotMentioned(log[..|log| - 1], id, thread);
      assert forall i | 0 <= i < |log| - 1 :: log[i] == log[..|log| - 1][i];
    }
  }

  /** A call is settled with at most one closing event, given exactly when it had been issued. */
  lemma FinishKeepsCore(t: Timing, b: Broker, id: string, c: Call, outcome: Outcome, more: seq<Emitted>)
    requires Core(t, b) && Get(b.pending, id) == Some(c)
    requires Opens(more, id) == 0 && Closes(more, id) == One(c.issued)
    requires forall i | 0 <= i < |more| :: more[i].thread == c.thread && OnlyAbout(more[i].event, id)
    ensures
      var f := Finished(b, id, c, outcome);
      Core(t, f.(log := f.log + more))
  {
    var f := Finished(b, id, c, outcome);
    var b' := f.(log := f.log + more);
    assert IdOk(t, b, id);
    DeleteUnique(b.pending, id);
    var s := Settlement(c.thread, outcome, c.issued, c.madeAt, b.now);
    AppendUnique(b.settled, id, s);
    forall x
      ensures IdOk(t, b', x)
    {
      GetDelete(b.pending, id, x);
      GetAppend(b.settled, [(id, s)], x);
      assert IdOk(t, b, x);
      if x == id {
        CountAppend(b.log, more, id);
        assert OnThread(b.log, id, c.thread);
      } else {
        Unmentioned(b.log, more, x);
      }
    }
    forall other
      ensures OpenCalls(b'.pending, other) <= MAX_CONCURRENT_CALLS_PER_THREAD
    {
      OpenCallsDelete(b.pending, id, other);
    }
  }

  /** The event opens or closes no call but this one. */
  ghost predicate OnlyAbout(e: WireEvent, id: string) {
    forall x :: e == ToolCall(x) || ClosesCall(e, x) ==> x == id
  }

  lemma {:induction false} CountAppend(log: seq<Emitted>, more: seq<Emitted>, id: string)
    ensures Opens(log + more, id) == Opens(log, id) + Opens(more, id)
    ensures Closes(log + more, id) == Closes(log, id) + Closes(more, id)
    decreases |more|
  {
    if more == [] {
      assert log + more == log;
    } else {
      var n := |more| - 1;
      assert log + more == log + more[..n] + [more[n]];
      CountAppend(log, more[..n], id);
      OpensSnoc(log + more[..n], more[n], id);
    }
  }

  lemma CountOne(e: Emitted, id: string)
    ensures Opens([e], id) == One(e.event == ToolCall(id)) && Closes([e], id) == One(ClosesCall(e.event, id))
  {
    OpensSnoc([], e, id);
    assert [] + [e] == [e];
  }

  lemma ResolveKeepsCore(t: Timing, b: Broker, thread: string, id: string, success: bool)
    requires Core(t, b)
    ensures Core(t, ResolvedCall(b, thread, id, success))
  {
    if CanAnswer(b, thread, id) {
      var e := Emitted(thread, RequestResolved(id, "resolved"));
      CountOne(e, id);
      FinishKeepsCore(t, b, id, Get(b.pending, id).value, Answered(success), [e]);
    }
  }

  lemma CancelKeepsCore(t: Timing, b: Broker, id: string)
    requires Core(t, b)
    ensures Core(t, CanceledCall(b, id))
  {
    if Has(b.pending, id) {
      var c := Get(b.pending, id).value;
      var e := Emitted(c.thread, ToolCancel(id));
      CountOne(e, id);
      FinishKeepsCore(t, b, id, c, Canceled, if c.issued then [e] else []);
    }
  }

  lemma FailKeepsCore(t: Timing, b: Broker, id: string, why: Why)
    requires Core(t, b)
    ensures Core(t, FailedCall(b, id, why))
  {
    hide Core, Opens, Closes, Finished;
    if Has(b.pending, id) {
      var c := Get(b.pending, id).value;
      var cancel := Emitted(c.thread, ToolCancel(id));
      var note := Emitted(c.thread, ToolUnavailable(id, if why.Detached? then "detached" else "timeout"));
      var first := if c.issued then [cancel] else [];
      CountCancel(cancel, c.issued, id);
      OpensSnoc(first, note, id);
      FinishKeepsCore(t, b, id, c, Unavailable(why), first + [note]);
      Associate(Finished(b, id, c, Unavailable(why)).log, first, [note]);
    }
  }

  lemma CountCancel(cancel: Emitted, issued: bool, id: string)
    requires cancel.event == ToolCancel(id)
    ensures
      var first := if issued then [cancel] else [];
      Opens(first, id) == 0 && Closes(first, id) == One(issued)
  {
    CountOne(cancel, id);
  }

  lemma {:induction false} CancelEachKeepsCore(t: Timing, b: Broker, m: Pairs<string, Call>, thread: Option<string>)
    requires Core(t, b)
    ensures Core(t, CanceledEach(b, m, thread))
    ensures
      var r := CanceledEach(b, m, thread);
      r.attached == b.attached && r.seats == b.seats && r.owners == b.owners && r.now == b.now
    decreases |m|
  {
    if m != [] {
      CancelKeepsCore(t, b, m[0].0);
      CancelEachKeepsCore(t, if thread == None || thread == Some(m[0].1.thread) then CanceledCall(b, m[0].0) else b, m[1..], thread);
    }
  }

  lemma TickKeepsCore(t: Timing, b: Broker, to: int)
    requires Core(t, b) && Allowed(b, Tick(to))
    ensures Core(t, b.(now := to))
  {
    forall id
      ensures IdOk(t, b.(now := to), id)
    {
      assert IdOk(t, b, id);
    }
  }

  // ---- every step, every run ----------------------------------------------------------------------------------

  lemma SeatKeepsInv(t: Timing, b: Broker, thread: string, holder: Option<nat>)
    requires Inv(t, b)
    ensures Inv(t, Seated(t, b, thread, holder))
  {
    var c := b.(seats := if holder.Some? then b.seats[thread := holder.value] else b.seats - {thread});
    CoreFrame(t, b, c);
    AttachKeepsCore(t, c, thread, ShouldBeAttached(c, thread));
    ReconciledInv(t, c, thread);
  }

  lemma ManifestKeepsInv(t: Timing, b: Broker, thread: string, m: Manifest, owner: Option<nat>)
    requires Inv(t, b)
    ensures Inv(t, ManifestSet(t, b, thread, m, owner))
  {
    hide IdOk, AttachedSet;
    var c := b.(manifests := b.manifests[thread := m]);
    CoreFrame(t, b, c);
    if owner.Some? {
      var d := c.(owners := c.owners[thread := owner.value]);
      CoreFrame(t, b, d);
      AttachKeepsCore(t, d, thread, ShouldBeAttached(d, thread));
      ReconciledInv(t, d, thread);
    }
  }

  /** Reconciling one thread restores the attach rule when it held of every other. */
  lemma ReconciledInv(t: Timing, b: Broker, thread: string)
    requires Core(t, Reconciled(t, b, thread))
    requires forall other | other != thread :: other in b.attached <==> ShouldBeAttached(b, other)
    ensures Inv(t, Reconciled(t, b, thread))
  {
    hide IdOk;
  }

  /** The core reads neither seats nor manifests. */
  lemma CoreFrame(t: Timing, b: Broker, c: Broker)
    requires Core(t, b) && c == b.(seats := c.seats, owners := c.owners, manifests := c.manifests)
    ensures Core(t, c)
  {
    forall id
      ensures IdOk(t, c, id)
    {
      assert IdOk(t, b, id);
    }
  }

  lemma StepKeepsInv(t: Timing, b: Broker, step: Step)
    requires Inv(t, b) && Allowed(b, step)
    ensures Inv(t, Next(t, b, step))
  {
    hide IdOk, Next, Core;
    match step
    case SetSeat(thread, holder) => SeatStep(t, b, thread, holder);
    case SetManifest(thread, m, owner) => ManifestStep(t, b, thread, m, owner);
    case _ =>
      CallStepFrame(t, b, step);
      CallStepKeepsCore(t, b, step);
      SameSeatsInv(t, b, Next(t, b, step));
  }

  lemma SeatStep(t: Timing, b: Broker, thread: string, holder: Option<nat>)
    requires Inv(t, b)
    ensures Inv(t, Next(t, b, SetSeat(thread, holder)))
  {
    SeatKeepsInv(t, b, thread, holder);
  }

  lemma ManifestStep(t: Timing, b: Broker, thread: string, m: Manifest, owner: Option<nat>)
    requires Inv(t, b)
    ensures Inv(t, Next(t, b, SetManifest(thread, m, owner)))
  {
    ManifestKeepsInv(t, b, thread, m, owner);
  }

  lemma SameSeatsInv(t: Timing, b: Broker, b': Broker)
    requires Inv(t, b) && Core(t, b')
    requires b'.attached == b.attached && b'.seats == b.seats && b'.owners == b.owners
    ensures Inv(t, b')
  {
    hide IdOk;
    assert forall thread :: ShouldBeAttached(b', thread) == ShouldBeAttached(b, thread);
  }

  /** Calls, answers, cancellations and time leave the seats alone. */
  lemma CallStepFrame(t: Timing, b: Broker, step: Step)
    requires Inv(t, b) && !step.SetSeat? && !step.SetManifest?
    ensures
      var b' := Next(t, b, step);
      b'.attached == b.attached && b'.seats == b.seats && b'.owners == b.owners
  {
    hide IdOk, Refused;
    match step
    case CancelThread(thread) => CancelEachKeepsCore(t, b, b.pending, Some(thread));
    case Shutdown => CancelEachKeepsCore(t, b, b.pending, None);
    case _ =>
  }

  lemma CallStepKeepsCore(t: Timing, b: Broker, step: Step)
    requires Inv(t, b) && Allowed(b, step) && !step.SetSeat? && !step.SetManifest?
    ensures Core(t, Next(t, b, step))
  {
    hide IdOk, ResolvedCall, FailedCall, CanceledCall, Called, CanceledEach;
    match step
    case MakeCall(id, thread, server, tool, bad, aborted) =>
      if Refused(b, thread, server, tool, bad, aborted).None? {
        CallKeepsCore(t, b, id, thread);
      }
    case Answer(thread, id, success) => ResolveKeepsCore(t, b, thread, id, success);
    case Abort(id) => CancelKeepsCore(t, b, id);
    case CancelThread(thread) => CancelEachKeepsCore(t, b, b.pending, Some(thread));
    case Shutdown => CancelEachKeepsCore(t, b, b.pending, None);
    case Tick(to) => TickKeepsCore(t, b, to);
    case GraceFires(id) => FailKeepsCore(t, b, id, Detached);
    case AnswerTimerFires(id) => FailKeepsCore(t, b, id, Timeout);
  }

  ghost predicate IsRun(t: Timing, b: Broker, steps: seq<Step>, end: Broker)
    decreases |steps|
  {
    if steps == [] then b == end
    else Allowed(b, steps[0]) && IsRun(t, Next(t, b, steps[0]), steps[1..], end)
  }

  const START := Broker(0, {}, map[], map[], map[], [], [], [])

  lemma StartInv(t: Timing)
    ensures Inv(t, START)
  {
  }

  lemma {:induction false} RunKeepsInv(t: Timing, b: Broker, steps: seq<Step>, end: Broker)
    requires Inv(t, b) && IsRun(t, b, steps, end)
    ensures Inv(t, end)
    decreases |steps|
  {
    if steps != [] {
      StepKeepsInv(t, b, steps[0]);
      RunKeepsInv(t, Next(t, b, steps[0]), steps[1..], end);
    }
  }

  // ---- what the broker promises -------------------------------------------------------------------------------

  /** Every call made is either open or settled, in every later state: no step loses one. */
  predicate Known(b: Broker, id: string) {
    Has(b.pending, id) || Has(b.settled, id)
  }

  predicate MadeAt(b: Broker, id: string, at: int) {
    match Get(b.pending, id)
    case Some(c) => c.madeAt == at
    case None => Has(b.settled, id) && Get(b.settled, id).value.madeAt == at
  }

  lemma FinishKeepsMade(b: Broker, id: string, c: Call, outcome: Outcome, x: string, at: int)
    requires Unique(b.pending) && Get(b.pending, id) == Some(c) && !Has(b.settled, id) && MadeAt(b, x, at)
    ensures MadeAt(Finished(b, id, c, outcome), x, at)
  {
    GetDelete(b.pending, id, x);
    GetAppend(b.settled, [(id, Settlement(c.thread, outcome, c.issued, c.madeAt, b.now))], x);
  }

  lemma AttachKeepsMade(t: Timing, b: Broker, thread: string, attached: bool, x: string, at: int)
    requires MadeAt(b, x, at)
    ensures MadeAt(AttachedSet(t, b, thread, attached), x, at)
  {
    ReseatedAllGet(t, b.now, thread, attached, b.pending, x);
  }

  lemma {:induction false} CancelEachKeepsMade(t: Timing, b: Broker, m: Pairs<string, Call>, thread: Option<string>, x: string, at: int)
    requires Core(t, b) && MadeAt(b, x, at)
    ensures MadeAt(CanceledEach(b, m, thread), x, at)
    decreases |m|
  {
    if m != [] {
      CancelKeepsMade(t, b, m[0].0, x, at);
      CancelKeepsCore(t, b, m[0].0);
      CancelEachKeepsMade(t, if thread == None || thread == Some(m[0].1.thread) then CanceledCall(b, m[0].0) else b, m[1..], thread, x, at);
    }
  }

  lemma CancelKeepsMade(t: Timing, b: Broker, id: string, x: string, at: int)
    requires Core(t, b) && MadeAt(b, x, at)
    ensures MadeAt(CanceledCall(b, id), x, at)
  {
    assert IdOk(t, b, id);
    if Has(b.pending, id) {
      FinishKeepsMade(b, id, Get(b.pending, id).value, Canceled, x, at);
    }
  }

  lemma StepKeepsMade(t: Timing, b: Broker, step: Step, x: string, at: int)
    requires Inv(t, b) && Allowed(b, step) && MadeAt(b, x, at)
    ensures MadeAt(Next(t, b, step), x, at)
  {
    hide AttachedSet, CanceledEach, OpenCalls, Unique, OnThread, Opens, Closes, ReseatedAll, Put, Delete;
    match step
    case SetSeat(thread, holder) =>
      var c := b.(seats := if holder.Some? then b.seats[thread := holder.value] else b.seats - {thread});
      AttachKeepsMade(t, c, thread, ShouldBeAttached(c, thread), x, at);
    case SetManifest(thread, m, owner) =>
      if owner.Some? {
        var c := b.(manifests := b.manifests[thread := m], owners := b.owners[thread := owner.value]);
        AttachKeepsMade(t, c, thread, ShouldBeAttached(c, thread), x, at);
      }
    case MakeCall(id, thread, _, _, _, _) =>
      var made := Call(thread, b.now, false, None, None);
      GetPut(b.pending, id, Issued(t, b.now, made), x);
      GetPut(b.pending, id, made.(graceAt := Some(b.now + t.graceMs)), x);
    case Answer(thread, id, success) =>
      assert IdOk(t, b, id);
      if CanAnswer(b, thread, id) {
        FinishKeepsMade(b, id, Get(b.pending, id).value, Answered(success), x, at);
      }
    case Abort(id) => CancelKeepsMade(t, b, id, x, at);
    case CancelThread(thread) => CancelEachKeepsMade(t, b, b.pending, Some(thread), x, at);
    case Shutdown => CancelEachKeepsMade(t, b, b.pending, None, x, at);
    case Tick(to) =>
    case GraceFires(id) =>
      assert IdOk(t, b, id);
      FinishKeepsMade(b, id, Get(b.pending, id).value, Unavailable(Detached), x, at);
    case AnswerTimerFires(id) =>
      assert IdOk(t, b, id);
      FinishKeepsMade(b, id, Get(b.pending, id).value, Unavailable(Timeout), x, at);
  }

  lemma {:induction false} RunKeepsMade(t: Timing, b: Broker, steps: seq<Step>, end: Broker, x: string, at: int)
    requires Inv(t, b) && IsRun(t, b, steps, end) && MadeAt(b, x, at)
    ensures MadeAt(end, x, at)
    decreases |steps|
  {
    if steps != [] {
      StepKeepsInv(t, b, steps[0]);
      StepKeepsMade(t, b, steps[0], x, at);
      RunKeepsMade(t, Next(t, b, steps[0]), steps[1..], end, x, at);
    }
  }

  /** How often the promise of a call has been settled. */
  function TimesSettled(m: Pairs<string, Settlement>, id: string): nat {
    if m == [] then 0 else (if m[0].0 == id then 1 else 0) + TimesSettled(m[1..], id)
  }

  lemma {:induction false} SettledOnce(m: Pairs<string, Settlement>, id: string)
    requires Unique(m)
    ensures TimesSettled(m, id) == One(Has(m, id))
  {
    if m != [] {
      SettledOnce(m[1..], id);
    }
  }

  /**
   * Never hangs: in every run that goes on from a state with the call made at `at`, once more than `graceMs + timeoutMs`
   * has passed the call has been settled, exactly once and no later than that; until then it is settled at most once.
   */
  lemma EveryCallSettlesOnce(t: Timing, before: seq<Step>, b: Broker, steps: seq<Step>, end: Broker, id: string, at: int)
    requires IsRun(t, START, before, b) && IsRun(t, b, steps, end) && MadeAt(b, id, at)
    ensures TimesSettled(end.settled, id) <= 1
    ensures end.now > at + t.graceMs + t.timeoutMs ==>
      !Has(end.pending, id) && TimesSettled(end.settled, id) == 1
    ensures Has(end.settled, id) ==> at <= Get(end.settled, id).value.at <= at + t.graceMs + t.timeoutMs
  {
    StartInv(t);
    RunKeepsInv(t, START, before, b);
    RunKeepsInv(t, b, steps, end);
    RunKeepsMade(t, b, steps, end, id, at);
    SettledOnce(end.settled, id);
    assert IdOk(t, end, id);
  }

  /**
   * The deadlines of every open call follow the seat: attached, it has been issued and no grace period runs;
   * detached, a grace period runs; issued, an answer deadline runs, within the bound from when it was made.
   */
  lemma DeadlinesFollowSeat(t: Timing, steps: seq<Step>, b: Broker, id: string)
    requires IsRun(t, START, steps, b) && Has(b.pending, id)
    ensures
      var c := Get(b.pending, id).value;
      && (ShouldBeAttached(b, c.thread) ==> c.issued && c.graceAt.None?)
      && (!ShouldBeAttached(b, c.thread) ==> c.graceAt.Some?)
      && (c.issued ==> c.answerAt.Some? && c.answerAt.value <= c.madeAt + t.graceMs + t.timeoutMs)
  {
    StartInv(t);
    RunKeepsInv(t, START, steps, b);
    assert IdOk(t, b, id);
  }

  /**
   * The journal balances: the calls it shows as open are exactly the issued ones still pending; a settled call was
   * opened and closed once each if it had been issued, and never otherwise; and no thread has more than eight open.
   */
  lemma JournalBalances(t: Timing, steps: seq<Step>, b: Broker, id: string, thread: string)
    requires IsRun(t, START, steps, b)
    ensures Opens(b.log, id) > Closes(b.log, id) <==> Has(b.pending, id) && Get(b.pending, id).value.issued
    ensures Has(b.settled, id) ==> Opens(b.log, id) == Closes(b.log, id) == One(Get(b.settled, id).value.issued)
    ensures !Known(b, id) ==> Opens(b.log, id) == Closes(b.log, id) == 0
    ensures Opens(b.log, id) <= 1
    ensures OpenCalls(b.pending, thread) <= MAX_CONCURRENT_CALLS_PER_THREAD
  {
    StartInv(t);
    RunKeepsInv(t, START, steps, b);
    assert IdOk(t, b, id);
  }

  // ---- the object ---------------------------------------------------------------------------------------------

  lemma {:induction false} ReseatedAllAppend(t: Timing, now: int, thread: string, attached: bool, a: Pairs<string, Call>, b: Pairs<string, Call>)
    ensures ReseatedAll(t, now, thread, attached, a + b)
         == ReseatedAll(t, now, thread, attached, a) + ReseatedAll(t, now, thread, attached, b)
  {
    if a == [] {
      assert a + b == b;
    } else {
      assert (a + b)[1..] == a[1..] + b;
      ReseatedAllAppend(t, now, thread, attached, a[1..], b);
    }
  }

  lemma {:induction false} IssueEventsAppend(thread: string, a: Pairs<string, Call>, b: Pairs<string, Call>)
    ensures IssueEvents(thread, a + b) == IssueEvents(thread, a) + IssueEvents(thread, b)
  {
    if a == [] {
      assert a + b == b;
    } else {
      assert (a + b)[1..] == a[1..] + b;
      IssueEventsAppend(thread, a[1..], b);
    }
  }

  /** One turn of the loop over the pending calls. */
  lemma ReseatOne(t: Timing, now: int, thread: string, attached: bool, m: Pairs<string, Call>, i: nat)
    requires i < |m|
    ensures
      var c := if m[i].1.thread == thread then Reseated(t, now, attached, m[i].1) else m[i].1;
      ReseatedAll(t, now, thread, attached, m[..i + 1]) == ReseatedAll(t, now, thread, attached, m[..i]) + [(m[i].0, c)]
    ensures IssueEvents(thread, m[..i + 1]) == IssueEvents(thread, m[..i])
         + if m[i].1.thread == thread && !m[i].1.issued then [Emitted(thread, ToolCall(m[i].0))] else []
  {
    assert m[..i + 1] == m[..i] + [m[i]];
    assert [m[i]][1..] == [];
    ReseatedAllAppend(t, now, thread, attached, m[..i], [m[i]]);
    IssueEventsAppend(thread, m[..i], [m[i]]);
  }

  class HostToolBroker {
    const timing: Timing
    var now: int
    var attached: set<string>
    var seats: map<string, nat>
    var owners: map<string, nat>
    var manifests: map<string, Manifest>
    var pending: Pairs<string, Call>
    var log: seq<Emitted>
    var settled: Pairs<string, Settlement>

    ghost function Value(): Broker
      reads this
    {
      Broker(now, attached, seats, owners, manifests, pending, log, settled)
    }

    constructor (timing: Timing)
      ensures this.timing == timing && Value() == START
    {
      this.timing := timing;
      now, attached, seats, owners, manifests := 0, {}, map[], map[], map[];
      pending, log, settled := [], [], [];
    }

    method SetAttached(thread: string, on: bool)
      modifies this`attached, this`pending, this`log
      ensures Value() == AttachedSet(timing, old(Value()), thread, on)
    {
      if on == (thread in attached) {
        return;
      }
      attached := if on then attached + {thread} else attached - {thread};
      var reseated: Pairs<string, Call> := [];
      assert pending[..0] == [];
      var i := 0;
      while i < |pending|
        invariant 0 <= i <= |pending| && pending == old(pending)
        invariant attached == if on then old(attached) + {thread} else old(attached) - {thread}
        invariant reseated == ReseatedAll(timing, now, thread, on, pending[..i])
        invariant log == if on then old(log) + IssueEvents(thread, pending[..i]) else old(log)
      {
        var id, c := pending[i].0, pending[i].1;
        ReseatOne(timing, now, thread, on, pending, i);
        if c.thread == thread {
          if on {
            c := c.(graceAt := None);
            if !c.issued {
              c := Issue(id, c);
            }
          } else if c.issued && c.graceAt.None? {
            c := c.(graceAt := Some(now + timing.graceMs));
          }
        }
        reseated := reseated + [(id, c)];
        i := i + 1;
      }
      assert pending[..|pending|] == pending;
      pending := reseated;
    }

    /** Journal the call and start its answer timer. */
    method Issue(id: string, c: Call) returns (issued: Call)
      modifies this`log
      ensures issued == Issued(timing, now, c) && log == old(log) + [Emitted(c.thread, ToolCall(id))]
    {
      log := log + [Emitted(c.thread, ToolCall(id))];
      issued := c.(issued := true, answerAt := Some(now + timing.timeoutMs));
    }

    method SetSeatHolder(thread: string, holder: Option<nat>)
      modifies this`seats, this`attached, this`pending, this`log
      ensures Value() == Seated(timing, old(Value()), thread, holder)
    {
      seats := if holder.Some? then seats[thread := holder.value] else seats - {thread};
      Reconcile(thread);
    }

    method Reconcile(thread: string)
      modifies this`attached, this`pending, this`log
      ensures Value() == Reconciled(timing, old(Value()), thread)
    {
      SetAttached(thread, thread in seats && thread in owners && seats[thread] == owners[thread]);
    }

    method SetManifest(thread: string, m: Manifest, owner: Option<nat>)
      modifies this`manifests, this`owners, this`attached, this`pending, this`log
      ensures Value() == ManifestSet(timing, old(Value()), thread, m, owner)
    {
      manifests := manifests[thread := m];
      if owner.Some? {
        owners := owners[thread := owner.value];
        Reconcile(thread);
      }
    }

    method CountOpen(thread: string) returns (n: nat)
      ensures n == OpenCalls(pending, thread)
    {
      n := 0;
      var i := 0;
      while i < |pending|
        invariant 0 <= i <= |pending|
        invariant OpenCalls(pending, thread) == n + OpenCalls(pending[i..], thread)
      {
        assert pending[i..][1..] == pending[i + 1..];
        if pending[i].1.thread == thread {
          n := n + 1;
        }
        i := i + 1;
      }
    }

    /** Run one host tool: turned away at once, or left pending under the fresh `id`. */
    method Run(id: string, thread: string, server: string, tool: string, badInput: bool, aborted: bool)
      returns (refusal: Option<Refusal>)
      requires !Has(pending, id)
      modifies this`pending, this`log
      ensures refusal == old(Refused(Value(), thread, server, tool, badInput, aborted))
      ensures Value() == if refusal.Some? then old(Value()) else Called(timing, old(Value()), id, thread)
    {
      if !Offered(Broker(now, attached, seats, owners, manifests, pending, log, settled), thread, server, tool) {
        return Some(NotOffered);
      }
      if badInput {
        return Some(BadInput);
      }
      var open := CountOpen(thread);
      if open >= MAX_CONCURRENT_CALLS_PER_THREAD {
        return Some(TooMany);
      }
      if aborted {
        return Some(AlreadyAborted);
      }
      var c := Call(thread, now, false, None, None);
      if thread in attached {
        c := Issue(id, c);
      } else {
        c := c.(graceAt := Some(now + timing.graceMs));
      }
      pending := Put(pending, id, c);
      refusal := None;
    }

    method Finish(id: string, c: Call, outcome: Outcome)
      modifies this`pending, this`settled
      ensures Value() == Finished(old(Value()), id, c, outcome)
    {
      pending := Delete(pending, id);
      settled := settled + [(id, Settlement(c.thread, outcome, c.issued, c.madeAt, now))];
    }

    method Resolve(thread: string, id: string, success: bool) returns (accepted: bool)
      modifies this`pending, this`settled, this`log
      ensures accepted == CanAnswer(old(Value()), thread, id)
      ensures Value() == ResolvedCall(old(Value()), thread, id, success)
    {
      var p := Get(pending, id);
      if p.None? || p.value.thread != thread || !p.value.issued {
        return false;
      }
      Finish(id, p.value, Answered(success));
      log := log + [Emitted(thread, RequestResolved(id, "resolved"))];
      accepted := true;
    }

    method Fail(id: string, why: Why)
      modifies this`pending, this`settled, this`log
      ensures Value() == FailedCall(old(Value()), id, why)
    {
      var p := Get(pending, id);
      if p.None? {
        return;
      }
      var wasIssued := p.value.issued;
      Finish(id, p.value, Unavailable(why));
      if wasIssued {
        log := log + [Emitted(p.value.thread, ToolCancel(id))];
      }
      log := log + [Emitted(p.value.thread, ToolUnavailable(id, if why.Detached? then "detached" else "timeout"))];
    }

    method Cancel(id: string)
      modifies this`pending, this`settled, this`log
      ensures Value() == CanceledCall(old(Value()), id)
    {
      var p := Get(pending, id);
      if p.None? {
        return;
      }
      var wasIssued := p.value.issued;
      Finish(id, p.value, Canceled);
      if wasIssued {
        log := log + [Emitted(p.value.thread, ToolCancel(id))];
      }
    }

    /** Cancel the open calls of one thread, or of all. */
    method CancelAll(thread: Option<string>)
      modifies this`pending, this`settled, this`log
      ensures Value() == CanceledEach(old(Value()), old(pending), thread)
    {
      var snapshot := pending;
      var i := 0;
      while i < |snapshot|
        invariant 0 <= i <= |snapshot|
        invariant CanceledEach(old(Value()), snapshot, thread) == CanceledEach(Value(), snapshot[i..], thread)
      {
        assert snapshot[i..][1..] == snapshot[i + 1..];
        if thread == None || thread == Some(snapshot[i].1.thread) {
          Cancel(snapshot[i].0);
        }
        i := i + 1;
      }
      assert snapshot[i..] == [];
    }
  }
}
