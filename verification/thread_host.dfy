/**
 * One thread of the session host with its driver (`daemon/threadHost.ts`, `daemon/claudeDriver.ts`): generations that
 * fence late events, blocking requests kept in step with the journal, cold resume, and stopping.
 *
 * `Runtime` is the thread's state as a value, with one function per operation; class `ThreadSession` is the object.
 * `wire` (everything appended), `unblocked` (requests whose waiting callback was released), `delivered` (sends handed
 * to a driver) and `ended` (generations over) are history, each of one daemon process: a restart begins them anew, over
 * a journal recovered from disk.
 */
module ThreadHosts {
  import opened Common
  import opened OrderedMap
  import opened Wire
  import opened LogParser
  import opened MemoryJournal
  import opened DiskJournals
  import D = DiskDurability
  import opened ThreadRecovery

  const SEEN_SENDS_KEPT: nat := 64

  /** `lastKey` is the state last emitted: whether a turn is in flight, and everything else it shows. */
  datatype Driver = Driver(
    gen: nat, pending: Pairs<string, RequestKind>, sendAccepted: bool, turn: bool, lastKey: Option<(bool, int)>)

  /** `tools` are the thread's host-tool calls in the journal and not yet answered or cancelled. */
  datatype Runtime = Runtime(
    journal: Journal, driver: Option<Driver>, recipe: bool, gen: nat, seenSends: seq<string>, tools: seq<string>,
    wire: seq<WireEvent>, unblocked: seq<string>, delivered: seq<string>, ended: set<nat>)

  function NewRuntime(journal: Journal): Runtime {
    Runtime(journal, None, false, 0, [], [], [], [], [], {})
  }

  predicate InTurn(d: Driver) {
    d.sendAccepted || d.turn
  }

  // ---- the driver ---------------------------------------------------------------------------------------------

  function Logged(l: Limits, rt: Runtime, event: WireEvent, ts: int): Runtime {
    rt.(journal := Appended(l, rt.journal, event, ts), wire := rt.wire + [event])
  }

  /** The `emit` a driver is given: events of a generation that is over do not reach the journal. */
  function Emitted(l: Limits, rt: Runtime, gen: nat, event: WireEvent, ts: int): Runtime {
    if rt.gen == gen then Logged(l, rt, event, ts) else rt
  }

  function EmittedEach(l: Limits, rt: Runtime, gen: nat, events: seq<WireEvent>, ts: int): Runtime
    decreases |events|
  {
    if events == [] then rt else EmittedEach(l, Emitted(l, rt, gen, events[0], ts), gen, events[1..], ts)
  }

  /** A state is emitted only when it differs from the last one; `rest` is what it shows besides the turn. */
  function StateEmitted(l: Limits, rt: Runtime, rest: int, ts: int): Runtime {
    match rt.driver
    case None => rt
    case Some(d) =>
      var key := (InTurn(d), rest);
      if d.lastKey == Some(key) then rt
      else Emitted(l, rt.(driver := Some(d.(lastKey := Some(key)))), d.gen, SessionState(InTurn(d)), ts)
  }

  /** A driver asks: the request enters its table and then the journal, so no answer can find it missing. */
  function Asked(l: Limits, rt: Runtime, kind: RequestKind, id: string, rest: int, ts: int): Runtime {
    match rt.driver
    case None => rt
    case Some(d) =>
      var r := rt.(driver := Some(d.(pending := Put(d.pending, id, kind))));
      StateEmitted(l, Emitted(l, r, d.gen, Request(kind, id), ts), rest, ts)
  }

  /** `cancelRequest`: the waiting callback is released and the request closed. */
  function Withdrawn(l: Limits, rt: Runtime, id: string, outcome: string, ts: int): Runtime {
    match rt.driver
    case None => rt
    case Some(d) =>
      if !Has(d.pending, id) then rt
      else
        var r := rt.(driver := Some(d.(pending := Delete(d.pending, id))), unblocked := rt.unblocked + [id]);
        Emitted(l, r, d.gen, RequestResolved(id, outcome), ts)
  }

  function WithdrawnEach(l: Limits, rt: Runtime, ids: seq<string>, outcome: string, ts: int): Runtime
    decreases |ids|
  {
    if ids == [] then rt else WithdrawnEach(l, Withdrawn(l, rt, ids[0], outcome, ts), ids[1..], outcome, ts)
  }

  function Ids(pending: Pairs<string, RequestKind>): seq<string> {
    if pending == [] then [] else [pending[0].0] + Ids(pending[1..])
  }

  function IdsOfKind(pending: Pairs<string, RequestKind>, kind: RequestKind): seq<string> {
    if pending == [] then []
    else (if pending[0].1 == kind then [pending[0].0] else []) + IdsOfKind(pending[1..], kind)
  }

  function AllWithdrawn(l: Limits, rt: Runtime, ts: int): Runtime {
    match rt.driver case None => rt case Some(d) => WithdrawnEach(l, rt, Ids(d.pending), "canceled", ts)
  }

  // ---- the host -----------------------------------------------------------------------------------------------

  /** `resolve`: a pending request of that kind is answered, released and closed; otherwise it is not found. */
  function Answered(l: Limits, rt: Runtime, kind: RequestKind, id: string, ts: int): (Runtime, bool) {
    match rt.driver
    case None => (rt, false)
    case Some(d) =>
      if Get(d.pending, id) != Some(kind) then (rt, false)
      else
        var r := rt.(driver := Some(d.(pending := Delete(d.pending, id))), unblocked := rt.unblocked + [id]);
        (Logged(l, r, RequestResolved(id, "resolved"), ts), true)
  }

  function ToolOpened(l: Limits, rt: Runtime, id: string, ts: int): Runtime {
    Logged(l, rt.(tools := rt.tools + [id]), ToolCall(id), ts)
  }

  function Without(ids: seq<string>, id: string): seq<string> {
    if ids == [] then [] else (if ids[0] == id then [] else [ids[0]]) + Without(ids[1..], id)
  }

  function ToolClosed(l: Limits, rt: Runtime, id: string, closing: WireEvent, ts: int): Runtime {
    if id in rt.tools then Logged(l, rt.(tools := Without(rt.tools, id)), closing, ts) else rt
  }

  /** `cancelThread` on the host tools of the thread. */
  function ToolsCanceled(l: Limits, rt: Runtime, ids: seq<string>, ts: int): Runtime
    decreases |ids|
  {
    if ids == [] then rt else ToolsCanceled(l, ToolClosed(l, rt, ids[0], ToolCancel(ids[0]), ts), ids[1..], ts)
  }

  /** How starting a driver goes: its factory may throw, before or after it emitted a first state. */
  datatype Start = Works | ThrowsEarly | ThrowsLate

  function Started(l: Limits, rt: Runtime, start: Start, rest: int, ts: int): Runtime {
    var gen := rt.gen + 1;
    var r := rt.(gen := gen, driver := Some(Driver(gen, [], false, false, None)));
    match start
    case Works => StateEmitted(l, r, rest, ts)
    case ThrowsEarly => rt.(gen := gen + 1, ended := rt.ended + {gen})
    case ThrowsLate => StateEmitted(l, r, rest, ts).(gen := gen + 1, driver := None, ended := rt.ended + {gen})
  }

  function LastSends(sends: seq<string>): seq<string> {
    if |sends| > SEEN_SENDS_KEPT then sends[|sends| - SEEN_SENDS_KEPT..] else sends
  }

  /** A send to a live, idle driver. */
  function Sent(l: Limits, rt: Runtime, uuid: string, rest: int, ts: int): Runtime
    requires rt.driver.Some?
  {
    var r := StateEmitted(l, rt.(driver := Some(rt.driver.value.(sendAccepted := true))), rest, ts);
    r.(seenSends := LastSends(rt.seenSends + [uuid]), delivered := rt.delivered + [uuid])
  }

  function ClosedEach(l: Limits, rt: Runtime, events: seq<WireEvent>, ts: int): Runtime
    decreases |events|
  {
    if events == [] then rt else ClosedEach(l, Logged(l, rt, events[0], ts), events[1..], ts)
  }

  /** `stop`; `last` is what the harness still emits while its session closes. */
  function Stopped(l: Limits, rt: Runtime, last: seq<WireEvent>, native: string, ts: int): Runtime {
    match rt.driver
    case None => rt
    case Some(d) =>
      var closed := EmittedEach(l, AllWithdrawn(l, ToolsCanceled(l, rt, rt.tools, ts), ts), d.gen, last, ts);
      var over := closed.(gen := closed.gen + 1, driver := None, ended := closed.ended + {d.gen});
      var swept := ClosedEach(l, over, Closings(over.journal.checkpoint.openRequests, "canceled"), ts);
      var idle := if InTurn(d) then Logged(l, swept, Interrupted(native), ts) else swept;
      Logged(l, idle, SessionState(false), ts)
  }

  // ---- the journal's open requests, by id ---------------------------------------------------------------------

  /** The event of the open request with this id. */
  function Waiting(open: seq<Entry>, id: string): Option<WireEvent> {
    if open == [] then None
    else if OpenId(open[0]) == Some(id) then Some(open[0].event)
    else Waiting(open[1..], id)
  }

  lemma {:induction false} WaitingSet(open: seq<Entry>, e: Entry, id: string)
    requires OpenId(e).Some?
    ensures Waiting(SetOpen(open, e), id) == if OpenId(e) == Some(id) then Some(e.event) else Waiting(open, id)
  {
    if open == [] {
      assert [e][1..] == [];
    } else if OpenId(open[0]) == OpenId(e) {
      assert ([e] + open[1..])[1..] == open[1..];
    } else {
      WaitingSet(open[1..], e, id);
    }
  }

  lemma {:induction false} WaitingClose(open: seq<Entry>, x: string, id: string)
    ensures Waiting(CloseRequest(open, x), id) == if x == id then None else Waiting(open, id)
  {
    if open != [] {
      WaitingClose(open[1..], x, id);
    }
  }

  /** What an event does to the open request of one id. */
  function Effect(event: WireEvent, id: string, before: Option<WireEvent>): Option<WireEvent> {
    match Classify(event)
    case RequestOpen(x) => if x == id then Some(event) else before
    case RequestClose(x) => if x == id then None else before
    case _ => before
  }

  lemma LoggedWaiting(l: Limits, rt: Runtime, event: WireEvent, ts: int, id: string)
    ensures Waiting(Logged(l, rt, event, ts).journal.checkpoint.openRequests, id)
         == Effect(event, id, Waiting(rt.journal.checkpoint.openRequests, id))
  {
    hide Appended;
    AppendFolds(l, rt.journal, event, ts);
    var open := rt.journal.checkpoint.openRequests;
    var e := NextEntry(rt.journal, event, ts);
    match Classify(event)
    case RequestOpen(x) => WaitingSet(open, e, id);
    case RequestClose(x) => WaitingClose(open, x, id);
    case _ =>
  }

  // ---- what holds between commands ----------------------------------------------------------------------------

  function Opens(wire: seq<WireEvent>, id: string): nat {
    if wire == [] then 0
    else Opens(wire[..|wire| - 1], id) + (if Classify(wire[|wire| - 1]) == RequestOpen(id) then 1 else 0)
  }

  function Closes(wire: seq<WireEvent>, id: string): nat {
    if wire == [] then 0
    else Closes(wire[..|wire| - 1], id) + (if Classify(wire[|wire| - 1]) == RequestClose(id) then 1 else 0)
  }

  /** The driver's own requests among the events. */
  function Asks(wire: seq<WireEvent>, id: string): nat {
    if wire == [] then 0
    else
      var last := wire[|wire| - 1];
      Asks(wire[..|wire| - 1], id) + (if last.Request? && last.requestId == id && id != "" then 1 else 0)
  }

  function Times(ids: seq<string>, id: string): nat {
    if ids == [] then 0 else Times(ids[..|ids| - 1], id) + (if ids[|ids| - 1] == id then 1 else 0)
  }

  lemma CountStep(wire: seq<WireEvent>, event: WireEvent, id: string)
    ensures Opens(wire + [event], id) == Opens(wire, id) + if Classify(event) == RequestOpen(id) then 1 else 0
    ensures Closes(wire + [event], id) == Closes(wire, id) + if Classify(event) == RequestClose(id) then 1 else 0
    ensures Asks(wire + [event], id)
         == Asks(wire, id) + if event.Request? && event.requestId == id && id != "" then 1 else 0
  {
    assert (wire + [event])[..|wire|] == wire;
  }

  lemma TimesStep(ids: seq<string>, x: string, id: string)
    ensures Times(ids + [x], id) == Times(ids, id) + if x == id then 1 else 0
  {
    assert (ids + [x])[..|ids|] == ids;
  }

  function One(b: bool): nat {
    if b then 1 else 0
  }

  function PendingKind(rt: Runtime, id: string): Option<RequestKind> {
    match rt.driver case Some(d) => Get(d.pending, id) case None => None
  }

  /** What should be waiting under the id: the driver's request, or a host-tool call. */
  function Expected(rt: Runtime, id: string): Option<WireEvent> {
    match PendingKind(rt, id)
    case Some(kind) => Some(Request(kind, id))
    case None => if id in rt.tools then Some(ToolCall(id)) else None
  }

  /** The books of one id: the tables and the journal agree, and each request is opened and closed at most once. */
  ghost predicate Books(rt: Runtime, id: string) {
    && Waiting(rt.journal.checkpoint.openRequests, id) == Expected(rt, id)
    && Opens(rt.wire, id) <= 1
    && Closes(rt.wire, id) + One(Expected(rt, id).Some?) == Opens(rt.wire, id)
    && Times(rt.unblocked, id) + One(PendingKind(rt, id).Some?) == Asks(rt.wire, id)
    && Asks(rt.wire, id) <= Opens(rt.wire, id)
    && (PendingKind(rt, id).Some? ==> id !in rt.tools && id != "")
    && (id in rt.tools ==> Asks(rt.wire, id) == 0 && id != "")
  }

  ghost predicate NoRepeats(ids: seq<string>) {
    forall i, j | 0 <= i < j < |ids| :: ids[i] != ids[j]
  }

  ghost predicate Frame(rt: Runtime) {
    && Named(rt.journal.checkpoint.openRequests) && NoRepeats(rt.tools)
    && (rt.driver.Some? ==> rt.driver.value.gen == rt.gen && Unique(rt.driver.value.pending))
    && (forall g | g in rt.ended :: g < rt.gen)
    && rt.seenSends == LastSends(rt.delivered)
    && (forall i, j | 0 <= i < j < |rt.delivered| && j - i <= SEEN_SENDS_KEPT :: rt.delivered[i] != rt.delivered[j])
    && (rt.driver.Some? && rt.driver.value.lastKey.Some? ==>
          && rt.journal.checkpoint.state.Some?
          && rt.journal.checkpoint.state.value.event == SessionState(rt.driver.value.lastKey.value.0))
  }

  ghost predicate Inv(rt: Runtime) {
    Frame(rt) && forall id :: Books(rt, id)
  }

  // ---- one event at a time ------------------------------------------------------------------------------------

  /** The tables have already moved to `mid`; logging the event brings the journal along. */
  lemma LoggedBooks(l: Limits, before: Runtime, mid: Runtime, event: WireEvent, ts: int, id: string)
    requires Books(before, id) && mid.journal == before.journal && mid.wire == before.wire
    requires Expected(mid, id) == Effect(event, id, Expected(before, id))
    requires Classify(event) == RequestOpen(id) ==> Opens(before.wire, id) == 0
    requires Classify(event) == RequestClose(id) ==> Expected(before, id).Some?
    requires
      var asked := One(event.Request? && event.requestId == id && id != "");
      && Times(mid.unblocked, id) + One(PendingKind(mid, id).Some?) == Asks(before.wire, id) + asked
      && (PendingKind(mid, id).Some? ==> id !in mid.tools && id != "")
      && (id in mid.tools ==> Asks(before.wire, id) + asked == 0 && id != "")
    ensures Books(Logged(l, mid, event, ts), id)
  {
    hide Appended, Waiting, Opens, Closes, Asks, Times;
    LoggedWaiting(l, mid, event, ts, id);
    CountStep(mid.wire, event, id);
  }

  /** What the tables must satisfy for the thread's frame to survive an event. */
  ghost predicate FrameMoves(before: Runtime, mid: Runtime, event: WireEvent) {
    && mid.journal == before.journal && mid.gen == before.gen && mid.ended == before.ended
    && mid.seenSends == before.seenSends && mid.delivered == before.delivered && NoRepeats(mid.tools)
    && (mid.driver.Some? ==>
          && mid.driver.value.gen == mid.gen && Unique(mid.driver.value.pending)
          && (mid.driver.value.lastKey.Some? ==>
                if event.SessionState? then mid.driver.value.lastKey.value.0 == event.turnInFlight
                else before.driver.Some? && before.driver.value.lastKey == mid.driver.value.lastKey))
  }

  lemma LoggedFrame(l: Limits, before: Runtime, mid: Runtime, event: WireEvent, ts: int)
    requires Frame(before) && FrameMoves(before, mid, event)
    ensures Frame(Logged(l, mid, event, ts))
  {
    hide Appended, Unique, Named;
    AppendFolds(l, mid.journal, event, ts);
    FoldKeepsNamed(l.checkpointMessages, mid.journal.checkpoint, NextEntry(mid.journal, event, ts));
  }

  /** An event that opens and closes nothing. */
  predicate Plain(event: WireEvent) {
    !Classify(event).RequestOpen? && !Classify(event).RequestClose? && !event.Request? && !event.SessionState?
  }

  lemma PlainKeepsInv(l: Limits, rt: Runtime, event: WireEvent, ts: int)
    requires Inv(rt) && Plain(event)
    ensures Inv(Logged(l, rt, event, ts))
  {
    hide Frame, Books;
    assert FrameMoves(rt, rt, event) by { FrameStays(rt, event); }
    LoggedFrame(l, rt, rt, event, ts);
    forall id ensures Books(Logged(l, rt, event, ts), id) {
      BooksStay(rt, event, id);
      LoggedBooks(l, rt, rt, event, ts, id);
    }
  }

  lemma FrameStays(rt: Runtime, event: WireEvent)
    requires Frame(rt) && !event.SessionState?
    ensures FrameMoves(rt, rt, event)
  {
  }

  lemma BooksStay(rt: Runtime, event: WireEvent, id: string)
    requires Books(rt, id) && !event.Request?
    ensures
      && Times(rt.unblocked, id) + One(PendingKind(rt, id).Some?) == Asks(rt.wire, id)
      && (PendingKind(rt, id).Some? ==> id !in rt.tools && id != "")
      && (id in rt.tools ==> Asks(rt.wire, id) == 0 && id != "")
  {
  }

  lemma EmittedKeepsInv(l: Limits, rt: Runtime, gen: nat, event: WireEvent, ts: int)
    requires Inv(rt) && Plain(event)
    ensures Inv(Emitted(l, rt, gen, event, ts))
  {
    hide Inv, Plain;
    if rt.gen == gen {
      PlainKeepsInv(l, rt, event, ts);
    }
  }

  /** A driver's flags are in no account. */
  lemma FlagsKeepInv(rt: Runtime, sendAccepted: bool, turn: bool)
    requires Inv(rt) && rt.driver.Some?
    ensures Inv(rt.(driver := Some(rt.driver.value.(sendAccepted := sendAccepted, turn := turn))))
  {
    hide Unique, Named, Waiting, Opens, Closes, Asks, Times;
    var after := rt.(driver := Some(rt.driver.value.(sendAccepted := sendAccepted, turn := turn)));
    forall id ensures Books(after, id) {
      assert Books(rt, id) && PendingKind(after, id) == PendingKind(rt, id);
    }
  }

  /** The state journaled is the driver's: whether a turn is in flight is what its flags say. */
  lemma StateKeepsInv(l: Limits, rt: Runtime, rest: int, ts: int)
    requires Inv(rt)
    ensures Inv(StateEmitted(l, rt, rest, ts))
    ensures
      var after := StateEmitted(l, rt, rest, ts);
      rt.driver.Some? ==>
        && after.driver == Some(rt.driver.value.(lastKey := Some((InTurn(rt.driver.value), rest))))
        && after.journal.checkpoint.state.Some?
        && after.journal.checkpoint.state.value.event == SessionState(InTurn(rt.driver.value))
        && after.tools == rt.tools && after.gen == rt.gen && after.delivered == rt.delivered
  {
    hide Appended, Unique, Named, Waiting, Opens, Closes, Asks, Times;
    if rt.driver.Some? {
      var d := rt.driver.value;
      var key := (InTurn(d), rest);
      if d.lastKey != Some(key) {
        var mid := rt.(driver := Some(d.(lastKey := Some(key))));
        var event := SessionState(InTurn(d));
        assert FrameMoves(rt, mid, event);
        LoggedFrame(l, rt, mid, event, ts);
        AppendFolds(l, mid.journal, event, ts);
        forall id ensures Books(Logged(l, mid, event, ts), id) {
          StateBooks(l, rt, mid, event, ts, id);
        }
      }
    }
  }

  lemma StateBooks(l: Limits, before: Runtime, mid: Runtime, event: WireEvent, ts: int, id: string)
    requires Books(before, id) && event.SessionState? && before.driver.Some? && mid.driver.Some?
    requires mid == before.(driver := mid.driver) && mid.driver.value.pending == before.driver.value.pending
    ensures Books(Logged(l, mid, event, ts), id)
  {
    hide Appended, Waiting, Opens, Closes, Asks, Times, Logged;
    assert PendingKind(mid, id) == PendingKind(before, id);
    LoggedBooks(l, before, mid, event, ts, id);
  }

  // ---- requests -----------------------------------------------------------------------------------------------

  /** A request with a fresh id is opened: it is pending, and waits in the journal. */
  lemma AskedKeepsInv(l: Limits, rt: Runtime, kind: RequestKind, id: string, rest: int, ts: int)
    requires Inv(rt) && rt.driver.Some? && id != "" && Opens(rt.wire, id) == 0
    ensures
      var after := Asked(l, rt, kind, id, rest, ts);
      Inv(after) && forall x :: PendingKind(after, x) == if x == id then Some(kind) else PendingKind(rt, x)
  {
    hide Appended, Unique, Named, Waiting, Opens, Closes, Asks, Times, Put, Get;
    var d := rt.driver.value;
    var mid := rt.(driver := Some(d.(pending := Put(d.pending, id, kind))));
    var event := Request(kind, id);
    PutUnique(d.pending, id, kind);
    LoggedFrame(l, rt, mid, event, ts);
    forall x ensures Books(Logged(l, mid, event, ts), x) {
      GetPut(d.pending, id, kind, x);
      assert Books(rt, x);
      LoggedBooks(l, rt, mid, event, ts, x);
    }
    StateKeepsInv(l, Logged(l, mid, event, ts), rest, ts);
    var after := Asked(l, rt, kind, id, rest, ts);
    forall x ensures PendingKind(after, x) == if x == id then Some(kind) else PendingKind(rt, x) {
      GetPut(d.pending, id, kind, x);
      assert PendingKind(mid, x) == if x == id then Some(kind) else PendingKind(rt, x);
    }
  }

  /** A pending request released and closed, by whoever closes it. */
  lemma ReleasedKeepsInv(l: Limits, rt: Runtime, id: string, outcome: string, ts: int)
    requires Inv(rt) && PendingKind(rt, id).Some?
    ensures
      var d := rt.driver.value;
      var mid := rt.(driver := Some(d.(pending := Delete(d.pending, id))), unblocked := rt.unblocked + [id]);
      var after := Logged(l, mid, RequestResolved(id, outcome), ts);
      Inv(after) && forall x :: PendingKind(after, x) == if x == id then None else PendingKind(rt, x)
  {
    hide Appended, Unique, Named, Waiting, Opens, Closes, Asks, Times, Delete, Get;
    var d := rt.driver.value;
    var mid := rt.(driver := Some(d.(pending := Delete(d.pending, id))), unblocked := rt.unblocked + [id]);
    var event := RequestResolved(id, outcome);
    DeleteUnique(d.pending, id);
    LoggedFrame(l, rt, mid, event, ts);
    assert Books(rt, id);
    forall x ensures Books(Logged(l, mid, event, ts), x) {
      GetDelete(d.pending, id, x);
      TimesStep(rt.unblocked, id, x);
      assert Books(rt, x);
      LoggedBooks(l, rt, mid, event, ts, x);
    }
    forall x ensures PendingKind(mid, x) == if x == id then None else PendingKind(rt, x) {
      GetDelete(d.pending, id, x);
    }
  }

  lemma WithdrawnKeepsInv(l: Limits, rt: Runtime, id: string, outcome: string, ts: int)
    requires Inv(rt)
    ensures Inv(Withdrawn(l, rt, id, outcome, ts))
  {
    hide Books, Logged;
    if rt.driver.Some? && Has(rt.driver.value.pending, id) {
      ReleasedKeepsInv(l, rt, id, outcome, ts);
    }
  }

  /** An answer is taken exactly when the request is pending and of that kind; refused, it changes nothing. */
  lemma AnsweredKeepsInv(l: Limits, rt: Runtime, kind: RequestKind, id: string, ts: int)
    requires Inv(rt)
    ensures
      var (after, ok) := Answered(l, rt, kind, id, ts);
      && Inv(after) && (ok <==> PendingKind(rt, id) == Some(kind)) && (!ok ==> after == rt)
      && (ok ==> after.wire == rt.wire + [RequestResolved(id, "resolved")] && after.unblocked == rt.unblocked + [id]
                 && forall x :: PendingKind(after, x) == if x == id then None else PendingKind(rt, x))
  {
    hide Inv, Appended;
    if rt.driver.Some? && Get(rt.driver.value.pending, id) == Some(kind) {
      ReleasedKeepsInv(l, rt, id, "resolved", ts);
    }
  }

  lemma {:induction false} WithdrawnEachKeepsInv(l: Limits, rt: Runtime, ids: seq<string>, outcome: string, ts: int)
    requires Inv(rt)
    ensures Inv(WithdrawnEach(l, rt, ids, outcome, ts))
    decreases |ids|
  {
    hide Inv, Withdrawn;
    if ids != [] {
      WithdrawnKeepsInv(l, rt, ids[0], outcome, ts);
      WithdrawnEachKeepsInv(l, Withdrawn(l, rt, ids[0], outcome, ts), ids[1..], outcome, ts);
    }
  }

  // ---- host-tool calls ----------------------------------------------------------------------------------------

  lemma {:induction false} InAppend(ids: seq<string>, id: string, x: string)
    ensures x in ids + [id] <==> x in ids || x == id
  {
  }

  lemma {:induction false} InWithout(ids: seq<string>, id: string, x: string)
    ensures x in Without(ids, id) <==> x in ids && x != id
  {
    if ids != [] {
      InWithout(ids[1..], id, x);
    }
  }

  lemma {:induction false} WithoutKeeps(ids: seq<string>, id: string)
    requires NoRepeats(ids)
    ensures NoRepeats(Without(ids, id))
    ensures id in ids ==> |Without(ids, id)| < |ids|
  {
    if ids != [] {
      var rest := ids[1..];
      assert forall i, j | 0 <= i < j < |rest| :: rest[i] == ids[i + 1] && rest[j] == ids[j + 1];
      WithoutKeeps(rest, id);
      forall i | 0 <= i < |Without(rest, id)| ensures Without(rest, id)[i] != ids[0] {
        InWithout(rest, id, Without(rest, id)[i]);
      }
      WithoutShorter(rest, id);
    }
  }

  lemma {:induction false} WithoutShorter(ids: seq<string>, id: string)
    ensures |Without(ids, id)| <= |ids|
  {
    if ids != [] {
      WithoutShorter(ids[1..], id);
    }
  }

  lemma ToolOpenedKeepsInv(l: Limits, rt: Runtime, id: string, ts: int)
    requires Inv(rt) && id != "" && Opens(rt.wire, id) == 0
    ensures Inv(ToolOpened(l, rt, id, ts))
  {
    hide Appended, Unique, Named, Waiting, Opens, Closes, Asks, Times;
    var mid := rt.(tools := rt.tools + [id]);
    assert Books(rt, id);
    LoggedFrame(l, rt, mid, ToolCall(id), ts);
    assert Books(rt, id);
    forall x ensures Books(Logged(l, mid, ToolCall(id), ts), x) {
      InAppend(rt.tools, id, x);
      assert Books(rt, x) && PendingKind(mid, x) == PendingKind(rt, x);
      LoggedBooks(l, rt, mid, ToolCall(id), ts, x);
    }
  }

  lemma ToolClosedKeepsInv(l: Limits, rt: Runtime, id: string, closing: WireEvent, ts: int)
    requires Inv(rt) && (closing == ToolCancel(id) || closing == RequestResolved(id, "resolved"))
    ensures Inv(ToolClosed(l, rt, id, closing, ts))
  {
    hide Appended, Unique, Named, Waiting, Opens, Closes, Asks, Times;
    if id in rt.tools {
      var mid := rt.(tools := Without(rt.tools, id));
      WithoutKeeps(rt.tools, id);
      LoggedFrame(l, rt, mid, closing, ts);
      assert Books(rt, id);
      forall x ensures Books(Logged(l, mid, closing, ts), x) {
        InWithout(rt.tools, id, x);
        assert Books(rt, x) && PendingKind(mid, x) == PendingKind(rt, x);
        LoggedBooks(l, rt, mid, closing, ts, x);
      }
    }
  }

  lemma {:induction false} ToolsCanceledKeepsInv(l: Limits, rt: Runtime, ids: seq<string>, ts: int)
    requires Inv(rt)
    ensures Inv(ToolsCanceled(l, rt, ids, ts))
    decreases |ids|
  {
    hide Inv, ToolClosed;
    if ids != [] {
      ToolClosedKeepsInv(l, rt, ids[0], ToolCancel(ids[0]), ts);
      ToolsCanceledKeepsInv(l, ToolClosed(l, rt, ids[0], ToolCancel(ids[0]), ts), ids[1..], ts);
    }
  }

  // ---- stopping -----------------------------------------------------------------------------------------------

  /** The text still streaming after an event. */
  function TextStep(text: string, event: WireEvent): string {
    match Classify(event)
    case TokenRole(t) => text + t
    case MessageRole => ""
    case TurnEnd => ""
    case _ => text
  }

  function TextAfter(text: string, events: seq<WireEvent>): string
    decreases |events|
  {
    if events == [] then text else TextAfter(TextStep(text, events[0]), events[1..])
  }

  function Text(rt: Runtime): string {
    rt.journal.checkpoint.inFlightText
  }

  lemma LoggedText(l: Limits, rt: Runtime, event: WireEvent, ts: int)
    ensures Text(Logged(l, rt, event, ts)) == TextStep(Text(rt), event)
  {
    hide Appended;
    AppendFolds(l, rt.journal, event, ts);
  }

  /** Everything but the journal, the wire and the tools is as before. */
  ghost predicate SameDriver(a: Runtime, b: Runtime) {
    b == a.(journal := b.journal, wire := b.wire, tools := b.tools)
  }

  lemma {:induction false} ToolsCanceledClears(l: Limits, rt: Runtime, ids: seq<string>, ts: int)
    ensures
      var after := ToolsCanceled(l, rt, ids, ts);
      && SameDriver(rt, after) && Text(after) == Text(rt)
      && forall x | x in after.tools :: x in rt.tools && x !in ids
    decreases |ids|
  {
    hide Appended;
    if ids != [] {
      var next := ToolClosed(l, rt, ids[0], ToolCancel(ids[0]), ts);
      LoggedText(l, rt.(tools := Without(rt.tools, ids[0])), ToolCancel(ids[0]), ts);
      ToolsCanceledClears(l, next, ids[1..], ts);
      forall x | x in ToolsCanceled(l, rt, ids, ts).tools ensures x in rt.tools && x !in ids {
        InWithout(rt.tools, ids[0], x);
      }
    }
  }

  lemma {:induction false} WithdrawnClears(l: Limits, rt: Runtime, outcome: string, ts: int)
    requires rt.driver.Some? && rt.driver.value.gen == rt.gen
    ensures
      var d := rt.driver.value;
      var after := WithdrawnEach(l, rt, Ids(d.pending), outcome, ts);
      && after.driver == Some(d.(pending := [])) && Text(after) == Text(rt)
      && after == rt.(journal := after.journal, wire := after.wire, driver := after.driver,
                      unblocked := after.unblocked)
    decreases |rt.driver.value.pending|
  {
    hide Appended;
    var d := rt.driver.value;
    if d.pending == [] {
    } else {
      var id := d.pending[0].0;
      var mid := rt.(driver := Some(d.(pending := Delete(d.pending, id))), unblocked := rt.unblocked + [id]);
      LoggedText(l, mid, RequestResolved(id, outcome), ts);
      assert Withdrawn(l, rt, id, outcome, ts) == Logged(l, mid, RequestResolved(id, outcome), ts);
      WithdrawnClears(l, Logged(l, mid, RequestResolved(id, outcome), ts), outcome, ts);
      assert Ids(d.pending)[1..] == Ids(d.pending[1..]);
    }
  }

  ghost predicate AllPlain(events: seq<WireEvent>) {
    forall e | e in events :: Plain(e)
  }

  lemma {:induction false} EmittedEachKeeps(l: Limits, rt: Runtime, gen: nat, events: seq<WireEvent>, ts: int)
    requires Inv(rt) && AllPlain(events)
    ensures
      var after := EmittedEach(l, rt, gen, events, ts);
      && Inv(after) && SameDriver(rt, after) && after.tools == rt.tools
      && Text(after) == if gen == rt.gen then TextAfter(Text(rt), events) else Text(rt)
    decreases |events|
  {
    hide Inv, Appended, Plain;
    if events != [] {
      assert events[0] in events && forall e | e in events[1..] :: e in events;
      EmittedKeepsInv(l, rt, gen, events[0], ts);
      LoggedText(l, rt, events[0], ts);
      EmittedEachKeeps(l, Emitted(l, rt, gen, events[0], ts), gen, events[1..], ts);
    }
  }

  /** With nothing pending and no call open, the journal has no open request. */
  lemma NothingOpen(rt: Runtime)
    requires Inv(rt) && (rt.driver.Some? ==> rt.driver.value.pending == []) && rt.tools == []
    ensures rt.journal.checkpoint.openRequests == []
  {
    if rt.journal.checkpoint.openRequests != [] {
      var id := SomethingExpected(rt);
    }
  }

  lemma SomethingExpected(rt: Runtime) returns (id: string)
    requires Inv(rt) && rt.journal.checkpoint.openRequests != []
    ensures Expected(rt, id).Some?
  {
    FirstWaits(rt.journal.checkpoint.openRequests);
    id := OpenId(rt.journal.checkpoint.openRequests[0]).value;
    assert Books(rt, id);
  }

  lemma FirstWaits(open: seq<Entry>)
    requires open != [] && Named(open)
    ensures OpenId(open[0]).Some? && Waiting(open, OpenId(open[0]).value).Some?
  {
    assert open[0] in open;
  }

  /** The driver, its pending table empty, is let go: its generation is over. */
  lemma LetGoKeepsInv(rt: Runtime)
    requires Inv(rt) && rt.driver.Some? && rt.driver.value.pending == []
    ensures Inv(rt.(gen := rt.gen + 1, driver := None, ended := rt.ended + {rt.driver.value.gen}))
  {
    hide Unique, Named, Waiting, Opens, Closes, Asks, Times;
    var after := rt.(gen := rt.gen + 1, driver := None, ended := rt.ended + {rt.driver.value.gen});
    forall id ensures Books(after, id) {
      assert Books(rt, id);
    }
  }

  lemma IdleStateKeepsInv(l: Limits, rt: Runtime, ts: int)
    requires Inv(rt) && rt.driver.None?
    ensures
      var after := Logged(l, rt, SessionState(false), ts);
      && Inv(after) && Text(after) == Text(rt)
      && after.journal.checkpoint.state.Some? && after.journal.checkpoint.state.value.event == SessionState(false)
      && after.journal.checkpoint.openRequests == rt.journal.checkpoint.openRequests
  {
    hide Appended, Unique, Named, Waiting, Opens, Closes, Asks, Times;
    var event := SessionState(false);
    LoggedText(l, rt, event, ts);
    AppendFolds(l, rt.journal, event, ts);
    LoggedFrame(l, rt, rt, event, ts);
    forall id ensures Books(Logged(l, rt, event, ts), id) {
      assert Books(rt, id);
      LoggedBooks(l, rt, rt, event, ts, id);
    }
  }

  /** Up to the point where the driver is let go: every request and call is closed, the harness has said its last. */
  lemma ClosingKeeps(l: Limits, rt: Runtime, last: seq<WireEvent>, ts: int)
    requires Inv(rt) && rt.driver.Some? && AllPlain(last)
    ensures
      var d := rt.driver.value;
      var closed := EmittedEach(l, AllWithdrawn(l, ToolsCanceled(l, rt, rt.tools, ts), ts), d.gen, last, ts);
      && Inv(closed) && closed.driver == Some(d.(pending := [])) && closed.tools == []
      && closed.gen == rt.gen && closed.ended == rt.ended && closed.delivered == rt.delivered
      && Text(closed) == TextAfter(Text(rt), last)
  {
    hide Books, ToolsCanceled, WithdrawnEach, EmittedEach, Unique, Named;
    var d := rt.driver.value;
    var a := ToolsCanceled(l, rt, rt.tools, ts);
    ToolsCanceledKeepsInv(l, rt, rt.tools, ts);
    ToolsCanceledClears(l, rt, rt.tools, ts);
    NoneLeft(a.tools, rt.tools);
    WithdrawnEachKeepsInv(l, a, Ids(d.pending), "canceled", ts);
    WithdrawnClears(l, a, "canceled", ts);
    EmittedEachKeeps(l, AllWithdrawn(l, a, ts), d.gen, last, ts);
  }

  lemma NoneLeft(tools: seq<string>, ids: seq<string>)
    requires forall x | x in tools :: x in ids && x !in ids
    ensures tools == []
  {
    if tools != [] {
      SomeIn(tools);
    }
  }

  lemma SomeIn(tools: seq<string>)
    requires tools != []
    ensures exists x :: x in tools
  {
    assert tools[0] in tools;
  }

  /**
   * After a stop the driver is gone and its generation over, no request is open, its own sweep having found none left
   * to close, and the state is idle. The next recovery has nothing to close if and only if a turn was in flight, or no
   * text was left streaming: without a turn no interruption is journaled to end that text.
   */
  lemma StopLeavesNothingOpen(l: Limits, rt: Runtime, last: seq<WireEvent>, native: string, ts: int)
    requires Inv(rt) && rt.driver.Some? && AllPlain(last)
    ensures
      var after := Stopped(l, rt, last, native, ts);
      && Inv(after) && after.driver == None && after.gen > rt.gen && rt.driver.value.gen in after.ended
      && after.journal.checkpoint.openRequests == [] && after.tools == [] && after.delivered == rt.delivered
      && after.journal.checkpoint.state.Some? && after.journal.checkpoint.state.value.event == SessionState(false)
      && (ThreadRecovery.Settled(after.journal.checkpoint)
          <==> InTurn(rt.driver.value) || TextAfter(Text(rt), last) == "")
  {
    hide Inv, Appended, ToolsCanceled, AllWithdrawn, EmittedEach, TextAfter;
    var d := rt.driver.value;
    var closed := EmittedEach(l, AllWithdrawn(l, ToolsCanceled(l, rt, rt.tools, ts), ts), d.gen, last, ts);
    ClosingKeeps(l, rt, last, ts);
    DriverGen(rt);
    LetGoKeepsInv(closed);
    var over := closed.(gen := closed.gen + 1, driver := None, ended := closed.ended + {d.gen});
    NothingOpen(over);
    assert ClosedEach(l, over, Closings([], "canceled"), ts) == over;
    PlainKeepsInv(l, over, Interrupted(native), ts);
    LoggedText(l, over, Interrupted(native), ts);
    var idle := if InTurn(d) then Logged(l, over, Interrupted(native), ts) else over;
    NothingOpen(idle);
    IdleStateKeepsInv(l, idle, ts);
  }

  /** Text that streams outside a turn outlives a stop: the next recovery will report a turn that was never running. */
  lemma TextOutlivesStop(l: Limits, ts: int)
    ensures
      var rt := Emitted(l, Started(l, NewRuntime(FRESH), Works, 0, ts), 1, Token("x"), ts);
      && Inv(rt) && rt.driver.Some? && !InTurn(rt.driver.value)
      && !ThreadRecovery.Settled(Stopped(l, rt, [], "", ts).journal.checkpoint)
  {
    hide Appended, Stopped, StateEmitted, Fold;
    var before := NewRuntime(FRESH);
    NewKeepsInv();
    StartedKeepsInv(l, before, Works, 0, ts);
    var rt0 := Started(l, before, Works, 0, ts);
    DriverGen(rt0);
    EmittedKeepsInv(l, rt0, 1, Token("x"), ts);
    LoggedText(l, rt0, Token("x"), ts);
    StopLeavesNothingOpen(l, Emitted(l, rt0, 1, Token("x"), ts), [], "", ts);
  }

  lemma DriverGen(rt: Runtime)
    requires Inv(rt) && rt.driver.Some?
    ensures rt.driver.value.gen == rt.gen
  {
  }

  // ---- starting and sending -----------------------------------------------------------------------------------

  lemma StartedKeepsInv(l: Limits, rt: Runtime, start: Start, rest: int, ts: int)
    requires Inv(rt) && rt.driver.None?
    ensures
      var after := Started(l, rt, start, rest, ts);
      && Inv(after) && after.gen > rt.gen && (after.driver.Some? <==> start == Works)
      && (after.driver.Some? ==> !InTurn(after.driver.value) && after.driver.value.gen == rt.gen + 1)
      && (after.driver.None? ==> rt.gen + 1 in after.ended)
      && after.delivered == rt.delivered && after.seenSends == rt.seenSends
  {
    hide Appended, Named, Waiting, Opens, Closes, Asks, Times, Books, StateEmitted;
    var gen := rt.gen + 1;
    var r := rt.(gen := gen, driver := Some(Driver(gen, [], false, false, None)));
    EmptyDriverKeepsInv(rt, gen);
    StateKeepsInv(l, r, rest, ts);
    StateFrame(l, r, rest, ts);
    if start == ThrowsLate {
      LetGoKeepsInv(StateEmitted(l, r, rest, ts));
    } else if start == ThrowsEarly {
      LetGoKeepsInv(r);
      assert rt.(gen := gen + 1, ended := rt.ended + {gen}) == r.(gen := gen + 1, driver := None, ended := r.ended + {gen});
    }
  }

  lemma StateFrame(l: Limits, rt: Runtime, rest: int, ts: int)
    ensures
      var after := StateEmitted(l, rt, rest, ts);
      after == rt.(journal := after.journal, wire := after.wire, driver := after.driver)
  {
    hide Appended;
  }

  lemma EmptyDriverKeepsInv(rt: Runtime, gen: nat)
    requires Inv(rt) && rt.driver.None? && gen == rt.gen + 1
    ensures Inv(rt.(gen := gen, driver := Some(Driver(gen, [], false, false, None))))
  {
    hide Named, Waiting, Opens, Closes, Asks, Times;
    var r := rt.(gen := gen, driver := Some(Driver(gen, [], false, false, None)));
    forall id ensures Books(r, id) {
      assert Books(rt, id);
    }
  }

  /**
   * A send that is accepted reaches a driver once, is remembered among the last 64, and is in the journal as a turn in
   * flight before the client is told.
   */
  lemma SentKeepsInv(l: Limits, rt: Runtime, uuid: string, rest: int, ts: int)
    requires Inv(rt) && rt.driver.Some? && uuid !in rt.seenSends
    ensures
      var after := Sent(l, rt, uuid, rest, ts);
      && Inv(after) && after.delivered == rt.delivered + [uuid]
      && after.driver.Some? && InTurn(after.driver.value)
      && after.journal.checkpoint.state.Some?
      && after.journal.checkpoint.state.value.event == SessionState(true)
  {
    hide Appended, Named, Waiting, Opens, Closes, Asks, Times, Unique, Books, StateEmitted;
    var d := rt.driver.value;
    var r := rt.(driver := Some(d.(sendAccepted := true)));
    FlagsKeepInv(rt, true, d.turn);
    assert d.(sendAccepted := true, turn := d.turn) == d.(sendAccepted := true);
    StateKeepsInv(l, r, rest, ts);
    StateFrame(l, r, rest, ts);
    var after := Sent(l, rt, uuid, rest, ts);
    Remembered(rt.delivered, uuid);
    forall id ensures Books(after, id) {
      SendsInNoBooks(StateEmitted(l, r, rest, ts), after, id);
    }
  }

  lemma SendsInNoBooks(rt: Runtime, after: Runtime, id: string)
    requires Books(rt, id) && after == rt.(seenSends := after.seenSends, delivered := after.delivered)
    ensures Books(after, id)
  {
    assert PendingKind(after, id) == PendingKind(rt, id);
  }

  lemma Remembered(delivered: seq<string>, uuid: string)
    requires forall i, j | 0 <= i < j < |delivered| && j - i <= SEEN_SENDS_KEPT :: delivered[i] != delivered[j]
    requires uuid !in LastSends(delivered)
    ensures
      var after := delivered + [uuid];
      && LastSends(LastSends(delivered) + [uuid]) == LastSends(after)
      && forall i, j | 0 <= i < j < |after| && j - i <= SEEN_SENDS_KEPT :: after[i] != after[j]
  {
    var after := delivered + [uuid];
    forall i, j | 0 <= i < j < |after| && j - i <= SEEN_SENDS_KEPT ensures after[i] != after[j] {
      if j == |delivered| {
        var kept := LastSends(delivered);
        assert kept[i - (|delivered| - |kept|)] == delivered[i];
      }
    }
  }

  // ---- the whole host -----------------------------------------------------------------------------------------

  /** What can happen to one thread, besides being opened or sent to. */
  datatype Action =
    | Interrupt
    | Resolve(kind: RequestKind, id: string)
    | Stop(last: seq<WireEvent>, native: string)
    | Ask(kind: RequestKind, id: string, rest: int)
    | Withdraw(id: string, outcome: string)
    | WithdrawKind(kind: RequestKind)
    | Says(event: WireEvent)
    | ShowState(rest: int)
    | Handed(ok: bool)
    | TurnEnds
    | Late(gen: nat, event: WireEvent)
    | ToolMade(id: string)
    | ToolDone(id: string, closing: WireEvent)
    | Heard(seqNo: int)
    | Trimmed(now: int)

  /** New ids are fresh; a harness itself opens and closes no request; a late event is of a generation over. */
  ghost predicate Possible(rt: Runtime, action: Action) {
    match action
    case Stop(last, _) => AllPlain(last)
    case Ask(_, id, _) => id != "" && Opens(rt.wire, id) == 0
    case Says(event) => Plain(event)
    case Late(gen, _) => gen in rt.ended
    case ToolMade(id) => id != "" && Opens(rt.wire, id) == 0
    case ToolDone(id, closing) => closing == ToolCancel(id) || closing == RequestResolved(id, "resolved")
    case _ => true
  }

  function Acted(l: Limits, rt: Runtime, action: Action, ts: int): Runtime {
    match action
    case Interrupt => AllWithdrawn(l, ToolsCanceled(l, rt, rt.tools, ts), ts)
    case Resolve(kind, id) => Answered(l, rt, kind, id, ts).0
    case Stop(last, native) => Stopped(l, rt, last, native, ts)
    case Ask(kind, id, rest) => Asked(l, rt, kind, id, rest, ts)
    case Withdraw(id, outcome) => Withdrawn(l, rt, id, outcome, ts)
    case WithdrawKind(kind) =>
      (match rt.driver
       case Some(d) => WithdrawnEach(l, rt, IdsOfKind(d.pending, kind), "canceled", ts)
       case None => rt)
    case Says(event) => (match rt.driver case Some(d) => Emitted(l, rt, d.gen, event, ts) case None => rt)
    case ShowState(rest) => StateEmitted(l, rt, rest, ts)
    case Handed(ok) =>
      (match rt.driver
       case Some(d) =>
         if !d.sendAccepted then rt
         else
           var r := rt.(driver := Some(d.(sendAccepted := false, turn := ok || d.turn)));
           if ok then r else Emitted(l, r, d.gen, Failed("Error"), ts)
       case None => rt)
    case TurnEnds => (match rt.driver case Some(d) => rt.(driver := Some(d.(turn := false))) case None => rt)
    case Late(gen, event) => Emitted(l, rt, gen, event, ts)
    case ToolMade(id) => ToolOpened(l, rt, id, ts)
    case ToolDone(id, closing) => ToolClosed(l, rt, id, closing, ts)
    case Heard(seqNo) => rt.(journal := Acked(rt.journal, seqNo))
    case Trimmed(now) => rt.(journal := Compacted(l, rt.journal, now))
  }

  datatype Caps = Caps(maxTurns: Option<nat>, maxLive: Option<nat>)

  datatype Step =
    | Open(thread: string, start: Start, rest: int)
    | Send(thread: string, uuid: string, start: Start, rest: int)
    | Act(thread: string, action: Action)
    | Restart(images: Pairs<string, Image>)

  /**
   * What a thread left behind: its disk, and whether a recipe is stored. The new process reads it with its own
   * configuration and epoch, closes out what was open, and compacts.
   */
  datatype Image = Image(
    cfg: Config, disk: Disk, epoch: string, native: string, ts: int, now: int, recipe: bool)

  type Threads = Pairs<string, Runtime>

  predicate Running(rt: Runtime) {
    rt.driver.Some? && InTurn(rt.driver.value)
  }

  /** How many sessions have a turn in flight. */
  function TurnsInFlight(threads: Threads): nat {
    if threads == [] then 0 else One(Running(threads[0].1)) + TurnsInFlight(threads[1..])
  }

  function LiveSessions(threads: Threads): nat {
    if threads == [] then 0 else One(threads[0].1.driver.Some?) + LiveSessions(threads[1..])
  }

  predicate AtCap(count: nat, cap: Option<nat>) {
    cap.Some? && count >= cap.value
  }

  function Opened(l: Limits, caps: Caps, threads: Threads, step: Step, ts: int): Threads
    requires step.Open?
  {
    var rt := match Get(threads, step.thread) case Some(r) => r case None => NewRuntime(FRESH);
    if rt.driver.Some? || AtCap(LiveSessions(threads), caps.maxLive) then Put(threads, step.thread, rt)
    else
      // The recipe of a failed start is not kept; the one there was before is.
      var r := Started(l, rt, step.start, step.rest, ts);
      Put(threads, step.thread, r.(recipe := r.driver.Some? || rt.recipe))
  }

  datatype Reply = Accepted | AlreadySeen | Conflict | NotFound | Internal

  function SendTo(l: Limits, caps: Caps, threads: Threads, step: Step, ts: int): (Threads, Reply)
    requires step.Send?
  {
    match Get(threads, step.thread)
    case None => (threads, NotFound)
    case Some(rt) =>
      if step.uuid in rt.seenSends then (threads, AlreadySeen)
      else if Running(rt) || AtCap(TurnsInFlight(threads), caps.maxTurns) then (threads, Conflict)
      else if rt.driver.Some? then (Put(threads, step.thread, Sent(l, rt, step.uuid, step.rest, ts)), Accepted)
      else if !rt.recipe then (threads, NotFound)
      else if AtCap(LiveSessions(threads), caps.maxLive) then (threads, Conflict)
      else
        var r := Started(l, rt, step.start, step.rest, ts);
        if r.driver.None? then (Put(threads, step.thread, r), Internal)
        else (Put(threads, step.thread, Sent(l, r, step.uuid, step.rest, ts)), Accepted)
  }

  /** The store a new process works with once it has recovered the thread. */
  function Reborn(image: Image): Store {
    TruncateIsIdempotent(image.cfg.codec, image.disk.log);
    CompactedTo(image.cfg, ClosedOut(image.cfg, Recovered(image.cfg, image.disk, image.epoch), image.native, image.ts),
                image.now)
  }

  /** No driver survives a restart, nor the list of accepted sends. */
  function Restarted(images: Pairs<string, Image>): Threads {
    if images == [] then []
    else
      var (thread, image) := images[0];
      [(thread, NewRuntime(Reborn(image).mem).(recipe := image.recipe))] + Restarted(images[1..])
  }

  function Next(l: Limits, caps: Caps, threads: Threads, step: Step, ts: int): Threads {
    match step
    case Open(_, _, _) => Opened(l, caps, threads, step, ts)
    case Send(_, _, _, _) => SendTo(l, caps, threads, step, ts).0
    case Act(thread, action) =>
      (match Get(threads, thread)
       case Some(rt) => Put(threads, thread, Acted(l, rt, action, ts))
       case None => threads)
    case Restart(images) => Restarted(images)
  }

  /** The disk of an image may hold anything at all; only the new process's epoch is its own. */
  ghost predicate Readable(image: Image) {
    image.cfg.codec.Valid() && !KnowsEpoch(image.disk.idx, image.epoch)
  }

  ghost predicate Enabled(threads: Threads, step: Step) {
    match step
    case Act(thread, action) => Has(threads, thread) ==> Possible(Get(threads, thread).value, action)
    case Restart(images) => forall pair | pair in images :: Readable(pair.1)
    case _ => true
  }

  ghost predicate HostInv(caps: Caps, threads: Threads) {
    && (forall t | Has(threads, t) :: Inv(Get(threads, t).value))
    && (caps.maxTurns.Some? ==> TurnsInFlight(threads) <= caps.maxTurns.value)
    && (caps.maxLive.Some? ==> LiveSessions(threads) <= caps.maxLive.value)
  }

  // ---- what every step keeps ----------------------------------------------------------------------------------

  /** Nothing a thread does on its own starts a session or a turn, or reopens a generation. */
  ghost predicate NoMoreLive(before: Runtime, after: Runtime) {
    && (after.driver.Some? ==> before.driver.Some?) && (Running(after) ==> Running(before))
    && after.gen >= before.gen && before.ended <= after.ended && after.delivered == before.delivered
  }

  lemma StateNoMore(l: Limits, rt: Runtime, rest: int, ts: int)
    ensures NoMoreLive(rt, StateEmitted(l, rt, rest, ts))
  {
    hide Appended;
  }

  lemma WithdrawnNoMore(l: Limits, rt: Runtime, id: string, outcome: string, ts: int)
    ensures NoMoreLive(rt, Withdrawn(l, rt, id, outcome, ts))
  {
    hide Appended;
  }

  lemma {:induction false} WithdrawnEachNoMore(l: Limits, rt: Runtime, ids: seq<string>, outcome: string, ts: int)
    ensures NoMoreLive(rt, WithdrawnEach(l, rt, ids, outcome, ts))
    decreases |ids|
  {
    hide Withdrawn;
    if ids != [] {
      WithdrawnNoMore(l, rt, ids[0], outcome, ts);
      WithdrawnEachNoMore(l, Withdrawn(l, rt, ids[0], outcome, ts), ids[1..], outcome, ts);
    }
  }

  lemma InterruptKeeps(l: Limits, rt: Runtime, ts: int)
    requires Inv(rt)
    ensures Inv(Acted(l, rt, Interrupt, ts)) && NoMoreLive(rt, Acted(l, rt, Interrupt, ts))
  {
    hide Inv, ToolsCanceled, WithdrawnEach;
    var a := ToolsCanceled(l, rt, rt.tools, ts);
    ToolsCanceledKeepsInv(l, rt, rt.tools, ts);
    ToolsCanceledClears(l, rt, rt.tools, ts);
    if a.driver.Some? {
      WithdrawnEachKeepsInv(l, a, Ids(a.driver.value.pending), "canceled", ts);
      WithdrawnEachNoMore(l, a, Ids(a.driver.value.pending), "canceled", ts);
    }
  }

  lemma HandedKeeps(l: Limits, rt: Runtime, ok: bool, ts: int)
    requires Inv(rt)
    ensures Inv(Acted(l, rt, Handed(ok), ts)) && NoMoreLive(rt, Acted(l, rt, Handed(ok), ts))
  {
    hide Inv, Logged;
    if rt.driver.Some? && rt.driver.value.sendAccepted {
      var d := rt.driver.value;
      var r := rt.(driver := Some(d.(sendAccepted := false, turn := ok || d.turn)));
      FlagsKeepInv(rt, false, ok || d.turn);
      EmittedKeepsInv(l, r, d.gen, Failed("Error"), ts);
      EmittedFrame(l, r, d.gen, Failed("Error"), ts);
    }
  }

  lemma EmittedFrame(l: Limits, rt: Runtime, gen: nat, event: WireEvent, ts: int)
    ensures SameDriver(rt, Emitted(l, rt, gen, event, ts))
  {
    hide Appended;
  }

  /** An event of a generation that is over changes nothing at all. */
  lemma LateIsDropped(l: Limits, rt: Runtime, gen: nat, event: WireEvent, ts: int)
    requires Inv(rt) && gen in rt.ended
    ensures Acted(l, rt, Late(gen, event), ts) == rt
  {
    hide Named, Books, Unique;
  }

  lemma ActedKeeps(l: Limits, rt: Runtime, action: Action, ts: int)
    requires Inv(rt) && Possible(rt, action)
    ensures Inv(Acted(l, rt, action, ts)) && NoMoreLive(rt, Acted(l, rt, action, ts))
  {
    hide Inv, Appended, ToolsCanceled, AllWithdrawn, WithdrawnEach, EmittedEach, Withdrawn, StateEmitted, Stopped;
    hide Opens, Plain;
    match action {
      case Interrupt => InterruptKeeps(l, rt, ts);
      case Resolve(kind, id) => AnsweredKeepsInv(l, rt, kind, id, ts);
      case Stop(last, native) =>
        if rt.driver.Some? {
          StopLeavesNothingOpen(l, rt, last, native, ts);
          StopEnds(l, rt, last, native, ts);
        } else {
          assert Stopped(l, rt, last, native, ts) == rt by { NothingToStop(l, rt, last, native, ts); }
        }
      case Ask(kind, id, rest) => AskKeeps(l, rt, kind, id, rest, ts);
      case Withdraw(id, outcome) =>
        WithdrawnKeepsInv(l, rt, id, outcome, ts);
        WithdrawnNoMore(l, rt, id, outcome, ts);
      case WithdrawKind(kind) =>
        if rt.driver.Some? {
          WithdrawnEachKeepsInv(l, rt, IdsOfKind(rt.driver.value.pending, kind), "canceled", ts);
          WithdrawnEachNoMore(l, rt, IdsOfKind(rt.driver.value.pending, kind), "canceled", ts);
        }
      case Says(event) =>
        if rt.driver.Some? {
          EmittedKeepsInv(l, rt, rt.driver.value.gen, event, ts);
        }
      case ShowState(rest) =>
        StateKeepsInv(l, rt, rest, ts);
        StateNoMore(l, rt, rest, ts);
      case Handed(ok) => HandedKeeps(l, rt, ok, ts);
      case TurnEnds =>
        if rt.driver.Some? {
          FlagsKeepInv(rt, rt.driver.value.sendAccepted, false);
          assert rt.driver.value.(sendAccepted := rt.driver.value.sendAccepted, turn := false)
                 == rt.driver.value.(turn := false);
        }
      case Late(gen, event) => LateIsDropped(l, rt, gen, event, ts);
      case ToolMade(id) => ToolOpenedKeepsInv(l, rt, id, ts);
      case ToolDone(id, closing) => ToolClosedKeepsInv(l, rt, id, closing, ts);
      case Heard(seqNo) => JournalKeepsInv(rt, Acked(rt.journal, seqNo));
      case Trimmed(now) =>
        CompactedFrame(l, rt.journal, now);
        JournalKeepsInv(rt, Compacted(l, rt.journal, now));
    }
  }

  /** Acks and compaction move what the journal retains, not what it shows. */
  lemma JournalKeepsInv(rt: Runtime, j: Journal)
    requires Inv(rt) && j.checkpoint == rt.journal.checkpoint
    ensures Inv(rt.(journal := j)) && NoMoreLive(rt, rt.(journal := j))
  {
    hide Named, Unique, Waiting, Opens, Closes, Asks, Times;
    forall id ensures Books(rt.(journal := j), id) {
      assert Books(rt, id) && PendingKind(rt.(journal := j), id) == PendingKind(rt, id);
    }
  }

  lemma NothingToStop(l: Limits, rt: Runtime, last: seq<WireEvent>, native: string, ts: int)
    requires rt.driver.None?
    ensures Stopped(l, rt, last, native, ts) == rt
  {
  }

  lemma StopEnds(l: Limits, rt: Runtime, last: seq<WireEvent>, native: string, ts: int)
    requires Inv(rt) && rt.driver.Some? && AllPlain(last)
    ensures rt.ended <= Stopped(l, rt, last, native, ts).ended
  {
    hide Inv, Appended, ToolsCanceled, AllWithdrawn, EmittedEach;
    ClosingKeeps(l, rt, last, ts);
    var d := rt.driver.value;
    var closed := EmittedEach(l, AllWithdrawn(l, ToolsCanceled(l, rt, rt.tools, ts), ts), d.gen, last, ts);
    var over := closed.(gen := closed.gen + 1, driver := None, ended := closed.ended + {d.gen});
    ClosedEachFrame(l, over, Closings(over.journal.checkpoint.openRequests, "canceled"), ts);
  }

  lemma {:induction false} ClosedEachFrame(l: Limits, rt: Runtime, events: seq<WireEvent>, ts: int)
    ensures SameDriver(rt, ClosedEach(l, rt, events, ts))
    decreases |events|
  {
    hide Appended;
    if events != [] {
      ClosedEachFrame(l, Logged(l, rt, events[0], ts), events[1..], ts);
    }
  }

  lemma AskKeeps(l: Limits, rt: Runtime, kind: RequestKind, id: string, rest: int, ts: int)
    requires Inv(rt) && id != "" && Opens(rt.wire, id) == 0
    ensures Inv(Asked(l, rt, kind, id, rest, ts)) && NoMoreLive(rt, Asked(l, rt, kind, id, rest, ts))
  {
    hide Inv, Appended, StateEmitted, Put;
    if rt.driver.Some? {
      AskedKeepsInv(l, rt, kind, id, rest, ts);
      var d := rt.driver.value;
      var r := rt.(driver := Some(d.(pending := Put(d.pending, id, kind))));
      EmittedFrame(l, r, d.gen, Request(kind, id), ts);
      StateNoMore(l, Emitted(l, r, d.gen, Request(kind, id), ts), rest, ts);
    }
  }

  lemma {:induction false} CountPut(threads: Threads, t: string, rt: Runtime)
    ensures TurnsInFlight(Put(threads, t, rt)) ==
            TurnsInFlight(threads) + One(Running(rt))
            - match Get(threads, t) case Some(r) => One(Running(r)) case None => 0
    ensures LiveSessions(Put(threads, t, rt)) ==
            LiveSessions(threads) + One(rt.driver.Some?)
            - match Get(threads, t) case Some(r) => One(r.driver.Some?) case None => 0
  {
    if threads != [] && threads[0].0 != t {
      CountPut(threads[1..], t, rt);
    }
  }

  lemma PutKeepsThreads(threads: Threads, t: string, rt: Runtime)
    requires Inv(rt) && forall x | Has(threads, x) :: Inv(Get(threads, x).value)
    ensures forall x | Has(Put(threads, t, rt), x) :: Inv(Get(Put(threads, t, rt), x).value)
  {
    hide Inv;
    forall x | Has(Put(threads, t, rt), x) ensures Inv(Get(Put(threads, t, rt), x).value) {
      GetPut(threads, t, rt, x);
    }
  }

  lemma NewKeepsInv()
    ensures Inv(NewRuntime(FRESH))
  {
  }

  lemma StepKeepsInv(l: Limits, caps: Caps, threads: Threads, step: Step, ts: int)
    requires HostInv(caps, threads) && Enabled(threads, step)
    ensures HostInv(caps, Next(l, caps, threads, step, ts))
  {
    hide Inv, Acted, Started, Sent, Put, TurnsInFlight, LiveSessions;
    match step {
      case Open(t, start, rest) => OpenKeepsInv(l, caps, threads, step, ts);
      case Send(t, uuid, start, rest) => SendKeepsInv(l, caps, threads, step, ts);
      case Act(t, action) =>
        if Has(threads, t) {
          var rt := Get(threads, t).value;
          ActedKeeps(l, rt, action, ts);
          PutKeepsThreads(threads, t, Acted(l, rt, action, ts));
          CountPut(threads, t, Acted(l, rt, action, ts));
        }
      case Restart(images) => RestartedKeepsInv(images);
    }
  }

  /** A recovered journal shows no open request and no running turn, whatever its disk held. */
  lemma RebornSettled(image: Image)
    requires Readable(image)
    ensures ThreadRecovery.Settled(Reborn(image).mem.checkpoint)
  {
    hide ClosedOut, Recovered, Compacted, CompactedTo, ReadLog, D.Inv, RecoveredMem;
    var cfg := image.cfg;
    RecoveringOnceIsEnough(cfg, image.disk, image.epoch, image.native, image.ts, image.now);
    var s := ClosedOut(cfg, Recovered(cfg, image.disk, image.epoch), image.native, image.ts);
    OpenStore(cfg, s);
    CompactedAtRest(cfg, s, image.now);
    CompactedFrame(cfg.limits, s.mem, image.now);
  }

  lemma SettledKeepsInv(j: Journal, recipe: bool)
    requires j.checkpoint.openRequests == []
    ensures Inv(NewRuntime(j).(recipe := recipe))
  {
  }

  /** Whatever the disks hold: the new process keeps the books from the start, with no session live and no turn running. */
  lemma {:induction false} RestartedKeepsInv(images: Pairs<string, Image>)
    requires forall pair | pair in images :: Readable(pair.1)
    ensures forall t | Has(Restarted(images), t) :: Inv(Get(Restarted(images), t).value)
    ensures TurnsInFlight(Restarted(images)) == 0 && LiveSessions(Restarted(images)) == 0
  {
    hide Inv, Reborn, Readable;
    if images != [] {
      assert images[0] in images && forall pair | pair in images[1..] :: pair in images;
      RebornSettled(images[0].1);
      SettledKeepsInv(Reborn(images[0].1).mem, images[0].1.recipe);
      RestartedKeepsInv(images[1..]);
      assert Restarted(images)[1..] == Restarted(images[1..]);
    }
  }

  lemma OpenKeepsInv(l: Limits, caps: Caps, threads: Threads, step: Step, ts: int)
    requires HostInv(caps, threads) && step.Open?
    ensures HostInv(caps, Opened(l, caps, threads, step, ts))
  {
    hide Inv, Started, Put, TurnsInFlight, LiveSessions;
    var rt := match Get(threads, step.thread) case Some(r) => r case None => NewRuntime(FRESH);
    NewKeepsInv();
    PutKeepsThreads(threads, step.thread, rt);
    CountPut(threads, step.thread, rt);
    if rt.driver.None? && !AtCap(LiveSessions(threads), caps.maxLive) {
      StartedKeepsInv(l, rt, step.start, step.rest, ts);
      var r := Started(l, rt, step.start, step.rest, ts);
      var recorded := r.(recipe := r.driver.Some? || rt.recipe);
      RecipeKeepsInv(r, recorded.recipe);
      PutKeepsThreads(threads, step.thread, recorded);
      CountPut(threads, step.thread, recorded);
    }
  }

  lemma RecipeKeepsInv(rt: Runtime, recipe: bool)
    requires Inv(rt)
    ensures Inv(rt.(recipe := recipe))
  {
    hide Named, Unique, Waiting, Opens, Closes, Asks, Times;
    forall id ensures Books(rt.(recipe := recipe), id) {
      assert Books(rt, id) && PendingKind(rt.(recipe := recipe), id) == PendingKind(rt, id);
    }
  }

  lemma SendKeepsInv(l: Limits, caps: Caps, threads: Threads, step: Step, ts: int)
    requires HostInv(caps, threads) && step.Send?
    ensures HostInv(caps, SendTo(l, caps, threads, step, ts).0)
  {
    hide Inv, Started, Sent, Put, TurnsInFlight, LiveSessions;
    if Has(threads, step.thread) {
      var rt := Get(threads, step.thread).value;
      if step.uuid !in rt.seenSends && !Running(rt) {
        if rt.driver.Some? {
          SentKeepsInv(l, rt, step.uuid, step.rest, ts);
          PutKeepsThreads(threads, step.thread, Sent(l, rt, step.uuid, step.rest, ts));
          CountPut(threads, step.thread, Sent(l, rt, step.uuid, step.rest, ts));
        } else {
          var r := Started(l, rt, step.start, step.rest, ts);
          StartedKeepsInv(l, rt, step.start, step.rest, ts);
          PutKeepsThreads(threads, step.thread, r);
          CountPut(threads, step.thread, r);
          if r.driver.Some? {
            SentKeepsInv(l, r, step.uuid, step.rest, ts);
            PutKeepsThreads(threads, step.thread, Sent(l, r, step.uuid, step.rest, ts));
            CountPut(threads, step.thread, Sent(l, r, step.uuid, step.rest, ts));
          }
        }
      }
    }
  }

  // ---- whole runs ---------------------------------------------------------------------------------------------

  ghost predicate IsRun(l: Limits, caps: Caps, threads: Threads, steps: seq<(Step, int)>, end: Threads)
    decreases |steps|
  {
    if steps == [] then end == threads
    else Enabled(threads, steps[0].0)
         && IsRun(l, caps, Next(l, caps, threads, steps[0].0, steps[0].1), steps[1..], end)
  }

  lemma {:induction false} RunKeepsInv(l: Limits, caps: Caps, threads: Threads, steps: seq<(Step, int)>, end: Threads)
    requires HostInv(caps, threads) && IsRun(l, caps, threads, steps, end)
    ensures HostInv(caps, end)
    decreases |steps|
  {
    hide HostInv, Next, Enabled;
    if steps != [] {
      StepKeepsInv(l, caps, threads, steps[0].0, steps[0].1);
      RunKeepsInv(l, caps, Next(l, caps, threads, steps[0].0, steps[0].1), steps[1..], end);
    }
  }

  lemma StartInv(caps: Caps)
    ensures HostInv(caps, [])
  {
  }

  /**
   * Over every run of the host, through any number of restarts on whatever disks, for every thread and id: what waits in
   * the journal is exactly the driver's pending request or the host-tool call of that id; in this process it was opened
   * at most once and closed exactly when it no longer waits; and a driver's request has its waiting callback released
   * exactly as often as it is closed.
   */
  lemma RequestsBalance(l: Limits, caps: Caps, steps: seq<(Step, int)>, end: Threads, thread: string, id: string)
    requires IsRun(l, caps, [], steps, end) && Has(end, thread)
    ensures
      var rt := Get(end, thread).value;
      && Waiting(rt.journal.checkpoint.openRequests, id) == Expected(rt, id)
      && Opens(rt.wire, id) <= 1 && Closes(rt.wire, id) == Opens(rt.wire, id) - One(Expected(rt, id).Some?)
      && (Asks(rt.wire, id) == 1 ==> Times(rt.unblocked, id) == Closes(rt.wire, id))
      && (Asks(rt.wire, id) == 0 ==> Times(rt.unblocked, id) == 0)
  {
    hide Frame, Waiting, Opens, Closes, Asks, Times;
    StartInv(caps);
    RunKeepsInv(l, caps, [], steps, end);
    var rt := Get(end, thread).value;
    assert Inv(rt) && Books(rt, id);
  }

  /** The caps hold after every step, restarts included. */
  lemma CapsHold(l: Limits, caps: Caps, steps: seq<(Step, int)>, end: Threads)
    requires IsRun(l, caps, [], steps, end)
    ensures caps.maxTurns.Some? ==> TurnsInFlight(end) <= caps.maxTurns.value
    ensures caps.maxLive.Some? ==> LiveSessions(end) <= caps.maxLive.value
  {
    hide Inv;
    StartInv(caps);
    RunKeepsInv(l, caps, [], steps, end);
  }

  /**
   * A message never reaches a driver again while it is among the last 64 sends the thread accepted in this process,
   * whether the process started empty or on recovered threads.
   */
  lemma SendsDoNotRepeat(l: Limits, caps: Caps, steps: seq<(Step, int)>, end: Threads, thread: string, i: nat, j: nat)
    requires IsRun(l, caps, [], steps, end) && Has(end, thread)
    requires i < j < |Get(end, thread).value.delivered| && j - i <= SEEN_SENDS_KEPT
    ensures Get(end, thread).value.delivered[i] != Get(end, thread).value.delivered[j]
  {
    hide Books, Named, Unique;
    StartInv(caps);
    RunKeepsInv(l, caps, [], steps, end);
    assert Inv(Get(end, thread).value);
  }

  /** One step keeps every thread there is, and every generation that is over, over. */
  lemma StepKeepsEnded(l: Limits, caps: Caps, threads: Threads, step: Step, ts: int, thread: string)
    requires HostInv(caps, threads) && Enabled(threads, step) && Has(threads, thread) && !step.Restart?
    ensures
      var after := Next(l, caps, threads, step, ts);
      Has(after, thread) && Get(threads, thread).value.ended <= Get(after, thread).value.ended
  {
    hide Inv, Acted, Started, Sent, Put, TurnsInFlight, LiveSessions;
    var rt := Get(threads, step.thread);
    if rt.Some? {
      match step {
        case Open(t, start, rest) => StartEnds(l, rt.value, start, rest, ts);
        case Send(t, uuid, start, rest) =>
          StartEnds(l, rt.value, start, rest, ts);
          if rt.value.driver.Some? {
            SendEnds(l, rt.value, uuid, rest, ts);
          } else if Started(l, rt.value, start, rest, ts).driver.Some? {
            SendEnds(l, Started(l, rt.value, start, rest, ts), uuid, rest, ts);
          }
        case Act(t, action) => ActedKeeps(l, rt.value, action, ts);
      }
    }
    forall r: Runtime ensures Get(Put(threads, step.thread, r), thread)
                              == if thread == step.thread then Some(r) else Get(threads, thread) {
      GetPut(threads, step.thread, r, thread);
    }
  }

  lemma StartEnds(l: Limits, rt: Runtime, start: Start, rest: int, ts: int)
    ensures rt.ended <= Started(l, rt, start, rest, ts).ended
  {
    hide Appended;
  }

  lemma SendEnds(l: Limits, rt: Runtime, uuid: string, rest: int, ts: int)
    requires rt.driver.Some?
    ensures rt.ended <= Sent(l, rt, uuid, rest, ts).ended
  {
    hide Appended;
  }

  /**
   * Once a driver's generation is over, nothing it still emits is ever journaled: at any later moment of any run of its
   * process its events leave the thread exactly as it was. No driver outlives its process.
   */
  lemma {:induction false} EndedGenerationsAreSilent(
      l: Limits, caps: Caps, threads: Threads, steps: seq<(Step, int)>, end: Threads, thread: string, gen: nat,
      event: WireEvent, ts: int)
    requires HostInv(caps, threads) && IsRun(l, caps, threads, steps, end)
    requires Has(threads, thread) && gen in Get(threads, thread).value.ended
    requires forall s | s in steps :: !s.0.Restart?
    ensures Has(end, thread) && Acted(l, Get(end, thread).value, Late(gen, event), ts) == Get(end, thread).value
    decreases |steps|
  {
    hide Inv, Next, Acted, Enabled;
    if steps == [] {
      LateIsDropped(l, Get(threads, thread).value, gen, event, ts);
    } else {
      var (step, at) := steps[0];
      assert steps[0] in steps && forall s | s in steps[1..] :: s in steps;
      StepKeepsInv(l, caps, threads, step, at);
      StepKeepsEnded(l, caps, threads, step, at, thread);
      EndedGenerationsAreSilent(l, caps, Next(l, caps, threads, step, at), steps[1..], end, thread, gen, event, ts);
    }
  }

  /** An accepted send is in the journal as a turn in flight before the client is told. */
  lemma AcceptedIsJournaled(l: Limits, caps: Caps, threads: Threads, step: Step, ts: int)
    requires HostInv(caps, threads) && step.Send? && SendTo(l, caps, threads, step, ts).1 == Accepted
    ensures
      var after := Get(SendTo(l, caps, threads, step, ts).0, step.thread);
      && after.Some? && Running(after.value)
      && after.value.journal.checkpoint.state.Some?
      && after.value.journal.checkpoint.state.value.event == SessionState(true)
      && after.value.delivered == Get(threads, step.thread).value.delivered + [step.uuid]
  {
    hide Inv, Started, Sent, Put, TurnsInFlight, LiveSessions;
    var rt := Get(threads, step.thread).value;
    if rt.driver.Some? {
      SentKeepsInv(l, rt, step.uuid, step.rest, ts);
      GetPut(threads, step.thread, Sent(l, rt, step.uuid, step.rest, ts), step.thread);
    } else {
      var r := Started(l, rt, step.start, step.rest, ts);
      StartedKeepsInv(l, rt, step.start, step.rest, ts);
      SentKeepsInv(l, r, step.uuid, step.rest, ts);
      GetPut(threads, step.thread, Sent(l, r, step.uuid, step.rest, ts), step.thread);
    }
  }

  // ---- the object ---------------------------------------------------------------------------------------------

  /** One thread's runtime; the driver's own fields are the ones of `driver`. */
  class ThreadSession {
    const journal: InMemoryJournal
    var driver: Option<Driver>
    var recipe: bool
    var gen: nat
    var seenSends: seq<string>
    var tools: seq<string>
    ghost var wire: seq<WireEvent>
    ghost var unblocked: seq<string>
    ghost var delivered: seq<string>
    ghost var ended: set<nat>

    ghost function Value(): Runtime
      reads this, journal
    {
      Runtime(journal.Value(), driver, recipe, gen, seenSends, tools, wire, unblocked, delivered, ended)
    }

    constructor (limits: Limits)
      ensures fresh(journal) && journal.limits == limits && Value() == NewRuntime(FRESH)
    {
      journal := new InMemoryJournal(limits);
      driver, recipe, gen, seenSends, tools := None, false, 0, [], [];
      wire, unblocked, delivered, ended := [], [], [], {};
    }

    method Log(event: WireEvent, ts: int)
      modifies this`wire, journal
      ensures Value() == Logged(journal.limits, old(Value()), event, ts)
    {
      var _ := journal.Append(event, ts);
      wire := wire + [event];
    }

    method Emit(from: nat, event: WireEvent, ts: int)
      modifies this`wire, journal
      ensures Value() == Emitted(journal.limits, old(Value()), from, event, ts)
    {
      if gen == from {
        Log(event, ts);
      }
    }

    method EmitState(rest: int, ts: int)
      modifies this`wire, this`driver, journal
      ensures Value() == StateEmitted(journal.limits, old(Value()), rest, ts)
    {
      hide Appended;
      if driver.None? {
        return;
      }
      var d := driver.value;
      var key := (d.sendAccepted || d.turn, rest);
      if d.lastKey == Some(key) {
        return;
      }
      driver := Some(d.(lastKey := Some(key)));
      Emit(d.gen, SessionState(key.0), ts);
    }

    method OpenRequest(kind: RequestKind, id: string, rest: int, ts: int)
      modifies this`wire, this`driver, journal
      ensures Value() == Asked(journal.limits, old(Value()), kind, id, rest, ts)
    {
      hide Logged;
      if driver.None? {
        return;
      }
      var d := driver.value;
      driver := Some(d.(pending := Put(d.pending, id, kind)));
      Emit(d.gen, Request(kind, id), ts);
      EmitState(rest, ts);
    }

    method CancelRequest(id: string, outcome: string, ts: int)
      modifies this`wire, this`driver, this`unblocked, journal
      ensures Value() == Withdrawn(journal.limits, old(Value()), id, outcome, ts)
    {
      hide Logged;
      if driver.None? || !Has(driver.value.pending, id) {
        return;
      }
      var d := driver.value;
      driver := Some(d.(pending := Delete(d.pending, id)));
      unblocked := unblocked + [id];
      Emit(d.gen, RequestResolved(id, outcome), ts);
    }

    method CancelRequests(ids: seq<string>, ts: int)
      modifies this`wire, this`driver, this`unblocked, journal
      ensures Value() == WithdrawnEach(journal.limits, old(Value()), ids, "canceled", ts)
    {
      hide Withdrawn;
      var i := 0;
      assert ids[0..] == ids;
      while i < |ids|
        invariant 0 <= i <= |ids|
        invariant WithdrawnEach(journal.limits, Value(), ids[i..], "canceled", ts)
                  == WithdrawnEach(journal.limits, old(Value()), ids, "canceled", ts)
        invariant Value() == old(Value()).(journal := Value().journal, driver := driver, wire := wire,
                                           unblocked := unblocked)
      {
        assert ids[i..][1..] == ids[i + 1..] && ids[i..][0] == ids[i];
        CancelRequest(ids[i], "canceled", ts);
        i := i + 1;
      }
    }

    method CancelAllRequests(ts: int)
      modifies this`wire, this`driver, this`unblocked, journal
      ensures Value() == AllWithdrawn(journal.limits, old(Value()), ts)
    {
      hide Withdrawn;
      if driver.Some? {
        CancelRequests(Ids(driver.value.pending), ts);
      }
    }

    /** `resolve`: false when there is no such request. */
    method Resolve(kind: RequestKind, id: string, ts: int) returns (ok: bool)
      modifies this`wire, this`driver, this`unblocked, journal
      ensures (Value(), ok) == Answered(journal.limits, old(Value()), kind, id, ts)
    {
      hide Appended;
      if driver.None? || Get(driver.value.pending, id) != Some(kind) {
        return false;
      }
      var d := driver.value;
      driver := Some(d.(pending := Delete(d.pending, id)));
      unblocked := unblocked + [id];
      Log(RequestResolved(id, "resolved"), ts);
      ok := true;
    }

    method CancelTools(ts: int)
      modifies this`wire, this`tools, journal
      ensures Value() == ToolsCanceled(journal.limits, old(Value()), old(tools), ts)
    {
      hide Logged;
      var ids, i := tools, 0;
      assert ids[0..] == ids;
      while i < |ids|
        invariant 0 <= i <= |ids|
        invariant ToolsCanceled(journal.limits, Value(), ids[i..], ts)
                  == ToolsCanceled(journal.limits, old(Value()), ids, ts)
      {
        assert ids[i..][1..] == ids[i + 1..] && ids[i..][0] == ids[i];
        if ids[i] in tools {
          tools := Without(tools, ids[i]);
          Log(ToolCancel(ids[i]), ts);
        }
        i := i + 1;
      }
    }

    /** `startDriver`; false when the factory throws. */
    method StartDriver(start: Start, rest: int, ts: int) returns (ok: bool)
      requires driver.None?
      modifies this, journal
      ensures Value() == Started(journal.limits, old(Value()), start, rest, ts) && ok == start.Works?
    {
      hide Logged;
      gen := gen + 1;
      ok := start.Works?;
      if !start.ThrowsEarly? {
        driver := Some(Driver(gen, [], false, false, None));
        EmitState(rest, ts);
      }
      if !ok {
        driver := None;
        ended := ended + {old(gen) + 1};
        gen := gen + 1;
      }
    }

    /** The part of `send` after its checks. */
    method Send(uuid: string, rest: int, ts: int)
      requires driver.Some?
      modifies this, journal
      ensures Value() == Sent(journal.limits, old(Value()), uuid, rest, ts)
    {
      hide StateEmitted;
      driver := Some(driver.value.(sendAccepted := true));
      EmitState(rest, ts);
      StateFrame(journal.limits, old(Value()).(driver := Some(old(driver).value.(sendAccepted := true))), rest, ts);
      seenSends := seenSends + [uuid];
      if |seenSends| > SEEN_SENDS_KEPT {
        seenSends := seenSends[|seenSends| - SEEN_SENDS_KEPT..];
      }
      delivered := delivered + [uuid];
    }

    method Sweep(ts: int)
      modifies this`wire, journal
      ensures Value() == ClosedEach(journal.limits, old(Value()),
                                    Closings(old(journal.checkpoint.openRequests), "canceled"), ts)
    {
      hide Logged;
      var open, i := journal.checkpoint.openRequests, 0;
      assert open[0..] == open;
      while i < |open|
        invariant 0 <= i <= |open|
        invariant ClosedEach(journal.limits, Value(), Closings(open[i..], "canceled"), ts)
                  == ClosedEach(journal.limits, old(Value()), Closings(open, "canceled"), ts)
      {
        assert open[i..][1..] == open[i + 1..] && open[i..][0] == open[i];
        var id := OpenId(open[i]);
        ClosingsStep(open[i..]);
        if id.Some? {
          Log(RequestResolved(id.value, "canceled"), ts);
        }
        i := i + 1;
      }
    }

    /** `stop`; `last` is what the harness emits while it closes. */
    method Stop(last: seq<WireEvent>, native: string, ts: int)
      modifies this, journal
      ensures Value() == Stopped(journal.limits, old(Value()), last, native, ts)
    {
      hide Logged, ToolsCanceled, AllWithdrawn, ClosedEach, EmittedEach, Closings;
      if driver.None? {
        return;
      }
      var d := driver.value;
      var hadTurn := d.sendAccepted || d.turn;
      LetGo(last, ts);
      Sweep(ts);
      if hadTurn {
        Log(Interrupted(native), ts);
      }
      Log(SessionState(false), ts);
    }

    /** The first half: calls and requests cancelled, the driver closed, its generation over. */
    method LetGo(last: seq<WireEvent>, ts: int)
      requires driver.Some?
      modifies this, journal
      ensures
        var l, d := journal.limits, old(driver).value;
        var closed := EmittedEach(
          l, AllWithdrawn(l, ToolsCanceled(l, old(Value()), old(tools), ts), ts), d.gen, last, ts);
        Value() == closed.(gen := closed.gen + 1, driver := None, ended := closed.ended + {d.gen})
    {
      hide Logged, ToolsCanceled, AllWithdrawn, EmittedEach;
      var d := driver.value;
      CancelTools(ts);
      ToolsCanceledClears(journal.limits, old(Value()), old(tools), ts);
      CancelAllRequests(ts);
      EmitLast(d.gen, last, ts);
      gen := gen + 1;
      driver := None;
      ended := ended + {d.gen};
    }

    method EmitLast(from: nat, last: seq<WireEvent>, ts: int)
      modifies this`wire, journal
      ensures Value() == EmittedEach(journal.limits, old(Value()), from, last, ts)
    {
      hide Logged;
      var i := 0;
      assert last[0..] == last;
      while i < |last|
        invariant 0 <= i <= |last|
        invariant EmittedEach(journal.limits, Value(), from, last[i..], ts)
                  == EmittedEach(journal.limits, old(Value()), from, last, ts)
      {
        assert last[i..][1..] == last[i + 1..] && last[i..][0] == last[i];
        Emit(from, last[i], ts);
        i := i + 1;
      }
    }
  }

  lemma ClosingsStep(open: seq<Entry>)
    requires open != []
    ensures
      var all := Closings(open, "canceled");
      match OpenId(open[0])
      case Some(id) => all != [] && all[0] == RequestResolved(id, "canceled") && all[1..] == Closings(open[1..], "canceled")
      case None => all == Closings(open[1..], "canceled")
  {
  }
}
