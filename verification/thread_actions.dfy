/**
 * What each thing that can happen to a thread does to it, in full (`daemon/threadHost.ts:239-387, 506-587`,
 * `daemon/claudeDriver.ts`): what it tells the journal, which requests it releases, which calls it ends, and what becomes
 * of the driver; and what each send is answered.
 */
module ThreadActions {
  import opened Common
  import opened OrderedMap
  import opened Wire
  import opened LogParser
  import opened MemoryJournal
  import opened ThreadRecovery
  import opened ThreadHosts

  // ---- what is told to the journal ----------------------------------------------------------------------------

  /** Exactly these events were journaled, in this order. */
  ghost predicate Tells(l: Limits, before: Runtime, after: Runtime, events: seq<WireEvent>, ts: int) {
    after.wire == before.wire + events && after.journal == AppendEach(l, before.journal, events, ts)
  }

  function Cancels(ids: seq<string>): seq<WireEvent> {
    seq(|ids|, (i: nat) requires i < |ids| => ToolCancel(ids[i]))
  }

  function Resolutions(ids: seq<string>, outcome: string): seq<WireEvent> {
    seq(|ids|, (i: nat) requires i < |ids| => RequestResolved(ids[i], outcome))
  }

  lemma TellsNothing(l: Limits, rt: Runtime, after: Runtime, ts: int)
    requires after.wire == rt.wire && after.journal == rt.journal
    ensures Tells(l, rt, after, [], ts)
  {
    assert rt.wire + [] == rt.wire;
  }

  lemma TellsOne(l: Limits, rt: Runtime, mid: Runtime, event: WireEvent, ts: int)
    requires mid.wire == rt.wire && mid.journal == rt.journal
    ensures Tells(l, rt, Logged(l, mid, event, ts), [event], ts)
  {
    hide Appended;
    assert [event][1..] == [];
    assert AppendEach(l, Appended(l, rt.journal, event, ts), [], ts) == Appended(l, rt.journal, event, ts);
  }

  lemma TellsThen(l: Limits, a: Runtime, b: Runtime, c: Runtime, x: seq<WireEvent>, y: seq<WireEvent>, ts: int)
    requires Tells(l, a, b, x, ts) && Tells(l, b, c, y, ts)
    ensures Tells(l, a, c, x + y, ts)
  {
    hide AppendEach;
    Associate(a.wire, x, y);
    AppendEachConcat(l, a.journal, x, y, ts);
  }

  // ---- several at once ----------------------------------------------------------------------------------------

  lemma {:induction false} WithoutAll(ids: seq<string>, id: string)
    requires id !in ids
    ensures Without(ids, id) == ids
  {
    if ids != [] {
      WithoutAll(ids[1..], id);
    }
  }

  lemma FirstGone(ids: seq<string>)
    requires NoRepeats(ids) && ids != []
    ensures Without(ids, ids[0]) == ids[1..] && NoRepeats(ids[1..])
  {
    var rest := ids[1..];
    FirstOnce(ids);
    WithoutAll(rest, ids[0]);
    WithoutFirst(ids);
  }

  lemma WithoutFirst(ids: seq<string>)
    requires ids != []
    ensures Without(ids, ids[0]) == Without(ids[1..], ids[0])
  {
    assert [] + Without(ids[1..], ids[0]) == Without(ids[1..], ids[0]);
  }

  /** Cancelling a thread's calls ends each of them, in order, and leaves none. */
  lemma {:induction false} ToolsCanceledDo(l: Limits, rt: Runtime, ts: int)
    requires NoRepeats(rt.tools)
    ensures
      var after := ToolsCanceled(l, rt, rt.tools, ts);
      && Tells(l, rt, after, Cancels(rt.tools), ts) && after == rt.(journal := after.journal, wire := after.wire, tools := [])
    decreases |rt.tools|
  {
    hide Logged, Tells, Without;
    if rt.tools == [] {
      TellsNothing(l, rt, rt, ts);
    } else {
      var id, rest := rt.tools[0], rt.tools[1..];
      FirstGone(rt.tools);
      var mid := rt.(tools := rest);
      var next := Logged(l, mid, ToolCancel(id), ts);
      LoggedKeeps(l, mid, ToolCancel(id), ts);
      TellsOne(l, rt, mid, ToolCancel(id), ts);
      ToolsCanceledDo(l, next, ts);
      TellsThen(l, rt, next, ToolsCanceled(l, next, rest, ts), [ToolCancel(id)], Cancels(rest), ts);
      assert Cancels(rt.tools) == [ToolCancel(id)] + Cancels(rest);
    }
  }

  lemma LoggedKeeps(l: Limits, rt: Runtime, event: WireEvent, ts: int)
    ensures
      var after := Logged(l, rt, event, ts);
      after == rt.(journal := after.journal, wire := after.wire)
  {
    hide Appended;
  }

  /** The driver as it was, but for these requests no longer pending. */
  ghost predicate Forgets(d: Driver, e: Driver, ids: seq<string>) {
    e == d.(pending := e.pending) && Unique(e.pending)
    && forall x :: Get(e.pending, x) == if x in ids then None else Get(d.pending, x)
  }

  ghost predicate Releases(l: Limits, rt: Runtime, after: Runtime, ids: seq<string>, outcome: string, ts: int) {
    && rt.driver.Some? && after.driver.Some? && Forgets(rt.driver.value, after.driver.value, ids)
    && Tells(l, rt, after, Resolutions(ids, outcome), ts)
    && after == rt.(journal := after.journal, wire := after.wire, driver := after.driver, unblocked := rt.unblocked + ids)
  }

  ghost predicate LiveDriver(rt: Runtime) {
    rt.driver.Some? && rt.driver.value.gen == rt.gen && Unique(rt.driver.value.pending)
  }

  lemma ReleaseOne(l: Limits, rt: Runtime, id: string, outcome: string, ts: int)
    requires LiveDriver(rt) && Has(rt.driver.value.pending, id)
    ensures Releases(l, rt, Withdrawn(l, rt, id, outcome, ts), [id], outcome, ts)
  {
    hide Tells, Logged;
    var d := rt.driver.value;
    var mid := rt.(driver := Some(d.(pending := Delete(d.pending, id))), unblocked := rt.unblocked + [id]);
    LoggedKeeps(l, mid, RequestResolved(id, outcome), ts);
    TellsOne(l, rt, mid, RequestResolved(id, outcome), ts);
    DeleteUnique(d.pending, id);
    forall x ensures Get(Delete(d.pending, id), x) == if x in [id] then None else Get(d.pending, x) {
      GetDelete(d.pending, id, x);
    }
    assert Resolutions([id], outcome) == [RequestResolved(id, outcome)];
  }

  lemma ReleaseNone(l: Limits, rt: Runtime, outcome: string, ts: int)
    requires LiveDriver(rt)
    ensures Releases(l, rt, rt, [], outcome, ts)
  {
    TellsNothing(l, rt, rt, ts);
    assert Resolutions([], outcome) == [] && rt.unblocked + [] == rt.unblocked;
  }

  lemma ReleaseThen(l: Limits, a: Runtime, b: Runtime, c: Runtime, x: seq<string>, y: seq<string>, outcome: string, ts: int)
    requires Releases(l, a, b, x, outcome, ts) && Releases(l, b, c, y, outcome, ts)
    ensures Releases(l, a, c, x + y, outcome, ts)
  {
    hide Tells;
    TellsThen(l, a, b, c, Resolutions(x, outcome), Resolutions(y, outcome), ts);
    assert Resolutions(x + y, outcome) == Resolutions(x, outcome) + Resolutions(y, outcome);
    Associate(a.unblocked, x, y);
  }

  /** Requests withdrawn one after the other: each released once and closed once, in order. */
  lemma {:induction false} WithdrawnEachDo(l: Limits, rt: Runtime, ids: seq<string>, outcome: string, ts: int)
    requires LiveDriver(rt) && NoRepeats(ids) && forall id | id in ids :: Has(rt.driver.value.pending, id)
    ensures Releases(l, rt, WithdrawnEach(l, rt, ids, outcome, ts), ids, outcome, ts)
    decreases |ids|
  {
    hide Withdrawn, NoRepeats;
    if ids == [] {
      ReleaseNone(l, rt, outcome, ts);
    } else {
      var next := Withdrawn(l, rt, ids[0], outcome, ts);
      assert ids[0] in ids;
      ReleaseOne(l, rt, ids[0], outcome, ts);
      FirstOnce(ids);
      forall id | id in ids[1..] ensures Has(next.driver.value.pending, id) {
        assert id in ids;
      }
      WithdrawnEachDo(l, next, ids[1..], outcome, ts);
      ReleaseThen(l, rt, next, WithdrawnEach(l, next, ids[1..], outcome, ts), [ids[0]], ids[1..], outcome, ts);
      assert [ids[0]] + ids[1..] == ids;
    }
  }

  lemma FirstOnce(ids: seq<string>)
    requires NoRepeats(ids) && ids != []
    ensures ids[0] !in ids[1..] && NoRepeats(ids[1..])
  {
    assert forall i | 0 <= i < |ids| - 1 :: ids[1..][i] == ids[i + 1];
  }

  lemma {:induction false} IdsAre(pending: Pairs<string, RequestKind>)
    requires Unique(pending)
    ensures NoRepeats(Ids(pending)) && forall id :: id in Ids(pending) <==> Has(pending, id)
  {
    if pending != [] {
      IdsAre(pending[1..]);
      OneInFront(pending[0].0, Ids(pending[1..]));
    }
  }

  lemma OneInFront(id: string, ids: seq<string>)
    requires NoRepeats(ids) && id !in ids
    ensures NoRepeats([id] + ids)
  {
  }

  lemma {:induction false} IdsOfKindAre(pending: Pairs<string, RequestKind>, kind: RequestKind)
    requires Unique(pending)
    ensures NoRepeats(IdsOfKind(pending, kind))
    ensures forall id :: id in IdsOfKind(pending, kind) <==> Get(pending, id) == Some(kind)
  {
    if pending != [] {
      IdsOfKindAre(pending[1..], kind);
      var rest := IdsOfKind(pending[1..], kind);
      if pending[0].1 == kind {
        OneInFront(pending[0].0, rest);
      } else {
        assert [] + rest == rest;
      }
    }
  }

  lemma NothingLeft(pending: Pairs<string, RequestKind>)
    requires forall x :: Get(pending, x) == None
    ensures pending == []
  {
    if pending != [] {
      assert Get(pending, pending[0].0).Some?;
    }
  }

  lemma InvParts(rt: Runtime)
    requires Inv(rt)
    ensures NoRepeats(rt.tools) && (rt.driver.Some? ==> LiveDriver(rt))
  {
  }

  // ---- interrupting -------------------------------------------------------------------------------------------

  /** Everything that waits is ended: the calls, then the requests, each once and in order; nothing else changes. */
  ghost predicate EndsAllWaiting(l: Limits, rt: Runtime, after: Runtime, ts: int) {
    var ids := match rt.driver case Some(d) => Ids(d.pending) case None => [];
    && Tells(l, rt, after, Cancels(rt.tools) + Resolutions(ids, "canceled"), ts)
    && after == rt.(journal := after.journal, wire := after.wire, tools := [], unblocked := rt.unblocked + ids,
                    driver := match rt.driver case Some(d) => Some(d.(pending := [])) case None => None)
  }

  lemma WaitingEnds(l: Limits, rt: Runtime, ts: int)
    requires Inv(rt)
    ensures EndsAllWaiting(l, rt, AllWithdrawn(l, ToolsCanceled(l, rt, rt.tools, ts), ts), ts)
  {
    hide Inv, Tells, ToolsCanceled, WithdrawnEach, NoRepeats, Unique;
    InvParts(rt);
    var a := ToolsCanceled(l, rt, rt.tools, ts);
    ToolsCanceledDo(l, rt, ts);
    if rt.driver.Some? {
      var pending := rt.driver.value.pending;
      IdsAre(pending);
      WithdrawnEachDo(l, a, Ids(pending), "canceled", ts);
      var b := WithdrawnEach(l, a, Ids(pending), "canceled", ts);
      NothingLeft(b.driver.value.pending);
      TellsThen(l, rt, a, b, Cancels(rt.tools), Resolutions(Ids(pending), "canceled"), ts);
    } else {
      assert Cancels(rt.tools) + Resolutions([], "canceled") == Cancels(rt.tools);
      assert rt.unblocked + [] == rt.unblocked;
    }
  }

  /**
   * An interrupt ends all that waits: every call of the thread is cancelled and every pending request released and closed,
   * each exactly once; in the journal nothing is open any more; the driver lives on in the same generation, its turn with
   * it.
   */
  lemma InterruptDoes(l: Limits, rt: Runtime, ts: int)
    requires Inv(rt)
    ensures
      var after := Acted(l, rt, Interrupt, ts);
      && EndsAllWaiting(l, rt, after, ts) && after.journal.checkpoint.openRequests == []
      && forall id ::
           && Times(after.unblocked, id) == Times(rt.unblocked, id) + One(PendingKind(rt, id).Some?)
           && Closes(after.wire, id) == Closes(rt.wire, id) + One(Expected(rt, id).Some?)
  {
    hide ToolsCanceled, WithdrawnEach, Frame, Tells, Times, Closes, Opens, Asks, Waiting;
    var after := Acted(l, rt, Interrupt, ts);
    WaitingEnds(l, rt, ts);
    InterruptKeeps(l, rt, ts);
    NothingOpen(after);
    forall id
      ensures Times(after.unblocked, id) == Times(rt.unblocked, id) + One(PendingKind(rt, id).Some?)
      ensures Closes(after.wire, id) == Closes(rt.wire, id) + One(Expected(rt, id).Some?)
    {
      assert Books(rt, id) && Books(after, id);
      var ids := match rt.driver case Some(d) => Ids(d.pending) case None => [];
      EndingsOpenNothing(rt.wire, rt.tools, ids, id);
      TellsWire(l, rt, after, Cancels(rt.tools) + Resolutions(ids, "canceled"), ts);
    }
  }

  lemma TellsWire(l: Limits, rt: Runtime, after: Runtime, events: seq<WireEvent>, ts: int)
    requires Tells(l, rt, after, events, ts)
    ensures after.wire == rt.wire + events
  {
  }

  lemma {:induction false} QuietOpens(wire: seq<WireEvent>, events: seq<WireEvent>, id: string)
    requires forall e | e in events :: !e.Request? && !e.ToolCall?
    ensures Opens(wire + events, id) == Opens(wire, id) && Asks(wire + events, id) == Asks(wire, id)
    decreases |events|
  {
    if events == [] {
      assert wire + events == wire;
    } else {
      var n := |events| - 1;
      assert events[n] in events;
      assert wire + events == wire + events[..n] + [events[n]];
      QuietOpens(wire, events[..n], id);
      CountStep(wire + events[..n], events[n], id);
    }
  }

  lemma EndingsOpenNothing(wire: seq<WireEvent>, tools: seq<string>, ids: seq<string>, id: string)
    ensures
      var more := wire + (Cancels(tools) + Resolutions(ids, "canceled"));
      Opens(more, id) == Opens(wire, id) && Asks(more, id) == Asks(wire, id)
  {
    QuietOpens(wire, Cancels(tools) + Resolutions(ids, "canceled"), id);
  }

  /** Withdrawing a kind releases and closes exactly the pending requests of that kind, each once. */
  lemma WithdrawKindDoes(l: Limits, rt: Runtime, kind: RequestKind, ts: int)
    requires Inv(rt)
    ensures
      var after := Acted(l, rt, WithdrawKind(kind), ts);
      if rt.driver.None? then after == rt
      else
        exists ids ::
          && Releases(l, rt, after, ids, "canceled", ts) && NoRepeats(ids)
          && forall id :: id in ids <==> PendingKind(rt, id) == Some(kind)
  {
    hide Inv, WithdrawnEach, Releases, NoRepeats, Unique;
    InvParts(rt);
    if rt.driver.Some? {
      var ids := IdsOfKind(rt.driver.value.pending, kind);
      IdsOfKindAre(rt.driver.value.pending, kind);
      WithdrawnEachDo(l, rt, ids, "canceled", ts);
    }
  }

  // ---- stopping -----------------------------------------------------------------------------------------------

  lemma {:induction false} EmittedEachTells(l: Limits, rt: Runtime, gen: nat, events: seq<WireEvent>, ts: int)
    requires rt.gen == gen
    ensures
      var after := EmittedEach(l, rt, gen, events, ts);
      Tells(l, rt, after, events, ts) && after == rt.(journal := after.journal, wire := after.wire)
    decreases |events|
  {
    hide Logged, Tells;
    if events == [] {
      TellsNothing(l, rt, rt, ts);
    } else {
      var next := Logged(l, rt, events[0], ts);
      LoggedKeeps(l, rt, events[0], ts);
      TellsOne(l, rt, rt, events[0], ts);
      EmittedEachTells(l, next, gen, events[1..], ts);
      TellsThen(l, rt, next, EmittedEach(l, next, gen, events[1..], ts), [events[0]], events[1..], ts);
      assert [events[0]] + events[1..] == events;
    }
  }

  /**
   * A stop ends all that waits, lets the harness say its last, reports an interruption exactly when a turn was in flight,
   * and an idle state; the driver is gone and its generation over.
   */
  lemma StopDoes(l: Limits, rt: Runtime, last: seq<WireEvent>, native: string, ts: int)
    requires Inv(rt) && rt.driver.Some? && AllPlain(last)
    ensures
      var after, d := Stopped(l, rt, last, native, ts), rt.driver.value;
      && Tells(l, rt, after,
               Cancels(rt.tools) + Resolutions(Ids(d.pending), "canceled") + last
               + (if d.sendAccepted || d.turn then [Interrupted(native)] else []) + [SessionState(false)], ts)
      && after == rt.(journal := after.journal, wire := after.wire, tools := [], driver := None, gen := rt.gen + 1,
                      unblocked := rt.unblocked + Ids(d.pending), ended := rt.ended + {d.gen})
  {
    hide Inv, Tells, ToolsCanceled, AllWithdrawn, EmittedEach, Logged, NoRepeats, Unique;
    InvParts(rt);
    var d := rt.driver.value;
    var waiting := Cancels(rt.tools) + Resolutions(Ids(d.pending), "canceled");
    var a := AllWithdrawn(l, ToolsCanceled(l, rt, rt.tools, ts), ts);
    var closed := EmittedEach(l, a, d.gen, last, ts);
    var over := closed.(gen := closed.gen + 1, driver := None, ended := closed.ended + {d.gen});
    WaitingEnds(l, rt, ts);
    EmittedEachTells(l, a, d.gen, last, ts);
    TellsThen(l, rt, a, closed, waiting, last, ts);
    ClosingKeeps(l, rt, last, ts);
    LetGoKeepsInv(closed);
    NothingOpen(over);
    assert ClosedEach(l, over, Closings([], "canceled"), ts) == over;
    TellsSame(l, rt, closed, over, waiting + last, ts);
    var idle := if InTurn(d) then Logged(l, over, Interrupted(native), ts) else over;
    var turn := if InTurn(d) then [Interrupted(native)] else [];
    if InTurn(d) {
      TellsOne(l, over, over, Interrupted(native), ts);
      LoggedKeeps(l, over, Interrupted(native), ts);
    } else {
      TellsNothing(l, over, over, ts);
    }
    TellsThen(l, rt, over, idle, waiting + last, turn, ts);
    TellsOne(l, idle, idle, SessionState(false), ts);
    LoggedKeeps(l, idle, SessionState(false), ts);
    TellsThen(l, rt, idle, Logged(l, idle, SessionState(false), ts), waiting + last + turn, [SessionState(false)], ts);
  }

  lemma TellsSame(l: Limits, rt: Runtime, a: Runtime, b: Runtime, events: seq<WireEvent>, ts: int)
    requires Tells(l, rt, a, events, ts) && b.wire == a.wire && b.journal == a.journal
    ensures Tells(l, rt, b, events, ts)
  {
  }

  // ---- what happens one at a time -----------------------------------------------------------------------------

  /** A state is told exactly when the turn or the rest of it changed since the last one told. */
  ghost predicate ShowsState(l: Limits, rt: Runtime, after: Runtime, told: seq<WireEvent>, rest: int, ts: int) {
    rt.driver.Some? &&
    var d := rt.driver.value;
    var busy := d.sendAccepted || d.turn;
    && after == rt.(journal := after.journal, wire := after.wire, driver := Some(d.(lastKey := Some((busy, rest)))))
    && told == (if d.lastKey == Some((busy, rest)) then [] else [SessionState(busy)])
    && Tells(l, rt, after, told, ts)
  }

  lemma StateShown(l: Limits, rt: Runtime, rest: int, ts: int) returns (told: seq<WireEvent>)
    requires LiveDriver(rt)
    ensures ShowsState(l, rt, StateEmitted(l, rt, rest, ts), told, rest, ts)
  {
    hide Logged, Tells;
    var d := rt.driver.value;
    var key := (InTurn(d), rest);
    if d.lastKey == Some(key) {
      told := [];
      TellsNothing(l, rt, rt, ts);
    } else {
      told := [SessionState(InTurn(d))];
      var mid := rt.(driver := Some(d.(lastKey := Some(key))));
      TellsOne(l, rt, mid, SessionState(InTurn(d)), ts);
      LoggedKeeps(l, mid, SessionState(InTurn(d)), ts);
    }
  }

  /** A request is pending and told of, and the state shown after it. */
  lemma AskDoes(l: Limits, rt: Runtime, kind: RequestKind, id: string, rest: int, ts: int) returns (told: seq<WireEvent>)
    requires Inv(rt) && rt.driver.Some? && id != "" && Opens(rt.wire, id) == 0
    ensures
      var after := Acted(l, rt, Ask(kind, id, rest), ts);
      && Tells(l, rt, after, [Request(kind, id)] + told, ts)
      && after.unblocked == rt.unblocked && after.tools == rt.tools && after.delivered == rt.delivered
      && (forall x :: PendingKind(after, x) == if x == id then Some(kind) else PendingKind(rt, x))
      && told == if rt.driver.value.lastKey == Some((InTurn(rt.driver.value), rest)) then []
                 else [SessionState(InTurn(rt.driver.value))]
  {
    hide Inv, Logged, Tells, Put;
    InvParts(rt);
    AskedKeepsInv(l, rt, kind, id, rest, ts);
    var d := rt.driver.value;
    var mid := rt.(driver := Some(d.(pending := Put(d.pending, id, kind))));
    var asked := Logged(l, mid, Request(kind, id), ts);
    PutUnique(d.pending, id, kind);
    TellsOne(l, rt, mid, Request(kind, id), ts);
    LoggedKeeps(l, mid, Request(kind, id), ts);
    told := StateShown(l, asked, rest, ts);
    TellsThen(l, rt, asked, StateEmitted(l, asked, rest, ts), [Request(kind, id)], told, ts);
  }

  /** A request answered, or withdrawn on its own: taken only when pending, and of that kind; released and closed once. */
  lemma AnswersDo(l: Limits, rt: Runtime, kind: RequestKind, id: string, outcome: string, ts: int)
    requires Inv(rt)
    ensures
      var answered, withdrawn := Answered(l, rt, kind, id, ts), Acted(l, rt, Withdraw(id, outcome), ts);
      && Acted(l, rt, Resolve(kind, id), ts) == answered.0
      && (answered.1 <==> PendingKind(rt, id) == Some(kind))
      && (if answered.1 then Releases(l, rt, answered.0, [id], "resolved", ts) else answered.0 == rt)
      && (if PendingKind(rt, id).Some? then Releases(l, rt, withdrawn, [id], outcome, ts) else withdrawn == rt)
  {
    hide Inv, Logged, Releases, Unique;
    InvParts(rt);
    if PendingKind(rt, id).Some? {
      ReleaseOne(l, rt, id, "resolved", ts);
      ReleaseOne(l, rt, id, outcome, ts);
      var d := rt.driver.value;
      assert Withdrawn(l, rt, id, "resolved", ts)
             == Logged(l, rt.(driver := Some(d.(pending := Delete(d.pending, id))), unblocked := rt.unblocked + [id]),
                       RequestResolved(id, "resolved"), ts);
    }
  }

  /**
   * What the harness itself does. An event is told as it is. A message handed over begins its turn, one that could not be
   * is reported and its turn never was. The end of a turn clears it. A late event of a generation over is lost. A host-tool
   * call is opened, and closed once.
   */
  lemma HarnessDoes(l: Limits, rt: Runtime, action: Action, ts: int)
    requires Inv(rt) && Possible(rt, action)
    ensures
      var after := Acted(l, rt, action, ts);
      match action
      case Says(event) =>
        Tells(l, rt, after, if rt.driver.Some? then [event] else [], ts)
        && after == rt.(journal := after.journal, wire := after.wire)
      case Handed(ok) =>
        if rt.driver.None? || !rt.driver.value.sendAccepted then after == rt
        else
          var d := rt.driver.value;
          && Tells(l, rt, after, if ok then [] else [Failed("Error")], ts)
          && after == rt.(journal := after.journal, wire := after.wire,
                          driver := Some(d.(sendAccepted := false, turn := if ok then true else d.turn)))
      case TurnEnds =>
        after == if rt.driver.None? then rt else rt.(driver := Some(rt.driver.value.(turn := false)))
      case Late(_, _) => after == rt
      case ToolMade(id) =>
        Tells(l, rt, after, [ToolCall(id)], ts)
        && after == rt.(journal := after.journal, wire := after.wire, tools := rt.tools + [id])
      case ToolDone(id, closing) =>
        if id !in rt.tools then after == rt
        else
          && Tells(l, rt, after, [closing], ts)
          && after == rt.(journal := after.journal, wire := after.wire, tools := after.tools)
          && forall x :: x in after.tools <==> x in rt.tools && x != id
      case ShowState(rest) => rt.driver.Some? ==> exists told :: ShowsState(l, rt, after, told, rest, ts)
      case Heard(seqNo) => after == rt.(journal := Acked(rt.journal, seqNo))
      case Trimmed(now) => after == rt.(journal := Compacted(l, rt.journal, now))
      case _ => true
  {
    hide Inv, Logged, Tells, Unique, Plain, Opens, Acked, Compacted;
    InvParts(rt);
    TellsNothing(l, rt, rt, ts);
    match action {
      case Says(event) =>
        TellsOne(l, rt, rt, event, ts);
        LoggedKeeps(l, rt, event, ts);
      case Handed(ok) => HandedDoes(l, rt, ok, ts);
      case Late(gen, event) => LateIsDropped(l, rt, gen, event, ts);
      case ToolMade(id) =>
        TellsOne(l, rt, rt.(tools := rt.tools + [id]), ToolCall(id), ts);
        LoggedKeeps(l, rt.(tools := rt.tools + [id]), ToolCall(id), ts);
      case ToolDone(id, closing) =>
        var mid := rt.(tools := Without(rt.tools, id));
        TellsOne(l, rt, mid, closing, ts);
        LoggedKeeps(l, mid, closing, ts);
        forall x ensures x in Without(rt.tools, id) <==> x in rt.tools && x != id {
          InWithout(rt.tools, id, x);
        }
      case ShowState(rest) =>
        if rt.driver.Some? {
          var told := StateShown(l, rt, rest, ts);
          assert ShowsState(l, rt, Acted(l, rt, action, ts), told, rest, ts);
        }
      case _ =>
    }
  }

  lemma HandedDoes(l: Limits, rt: Runtime, ok: bool, ts: int)
    requires LiveDriver(rt) || rt.driver.None?
    ensures
      var after := Acted(l, rt, Handed(ok), ts);
      if rt.driver.None? || !rt.driver.value.sendAccepted then after == rt
      else
        var d := rt.driver.value;
        && Tells(l, rt, after, if ok then [] else [Failed("Error")], ts)
        && after == rt.(journal := after.journal, wire := after.wire,
                        driver := Some(d.(sendAccepted := false, turn := if ok then true else d.turn)))
  {
    hide Logged, Tells;
    if rt.driver.Some? && rt.driver.value.sendAccepted {
      var d := rt.driver.value;
      var r := rt.(driver := Some(d.(sendAccepted := false, turn := ok || d.turn)));
      TellsNothing(l, rt, r, ts);
      TellsOne(l, rt, r, Failed("Error"), ts);
      LoggedKeeps(l, r, Failed("Error"), ts);
    }
  }

  // ---- starting and sending -----------------------------------------------------------------------------------

  /**
   * Starting a driver: a new generation with nothing pending and no turn, which shows itself idle. A factory that throws
   * leaves no driver and a generation that is over, whatever it told before it threw.
   */
  lemma StartDoes(l: Limits, rt: Runtime, start: Start, rest: int, ts: int)
    requires Inv(rt) && rt.driver.None?
    ensures
      var after, gen := Started(l, rt, start, rest, ts), rt.gen + 1;
      && Tells(l, rt, after, if start == ThrowsEarly then [] else [SessionState(false)], ts)
      && after == rt.(journal := after.journal, wire := after.wire, driver := after.driver,
                      gen := if start == Works then gen else gen + 1,
                      ended := if start == Works then rt.ended else rt.ended + {gen})
      && after.driver == if start == Works then Some(Driver(gen, [], false, false, Some((false, rest)))) else None
  {
    hide Inv, Tells, Logged;
    var gen := rt.gen + 1;
    var r := rt.(gen := gen, driver := Some(Driver(gen, [], false, false, None)));
    var told := StateShown(l, r, rest, ts);
    TellsNothing(l, rt, rt.(gen := gen + 1, ended := rt.ended + {gen}), ts);
    TellsNothing(l, rt, r, ts);
    TellsThen(l, rt, r, StateEmitted(l, r, rest, ts), [], told, ts);
    TellsSame(l, rt, StateEmitted(l, r, rest, ts), Started(l, rt, ThrowsLate, rest, ts), [] + told, ts);
    assert [] + told == told;
  }

  /** An accepted message: delivered once and remembered, its turn begun, and shown unless it was shown already. */
  lemma SendDoes(l: Limits, rt: Runtime, uuid: string, rest: int, ts: int)
    requires Inv(rt) && rt.driver.Some?
    ensures
      var after, d := Sent(l, rt, uuid, rest, ts), rt.driver.value;
      && Tells(l, rt, after, if d.lastKey == Some((true, rest)) then [] else [SessionState(true)], ts)
      && after == rt.(journal := after.journal, wire := after.wire, seenSends := after.seenSends,
                      delivered := rt.delivered + [uuid],
                      driver := Some(d.(sendAccepted := true, lastKey := Some((true, rest)))))
  {
    hide Tells, Logged;
    var d := rt.driver.value;
    var r := rt.(driver := Some(d.(sendAccepted := true)));
    var told := StateShown(l, r, rest, ts);
    TellsNothing(l, rt, r, ts);
    TellsThen(l, rt, r, StateEmitted(l, r, rest, ts), [], told, ts);
    assert [] + told == told;
    TellsSame(l, rt, StateEmitted(l, r, rest, ts), Sent(l, rt, uuid, rest, ts), told, ts);
  }

  /** Among the last sixty-four messages delivered. */
  ghost predicate RecentlyDelivered(rt: Runtime, uuid: string) {
    exists i :: 0 <= i < |rt.delivered| && i >= |rt.delivered| - 64 && rt.delivered[i] == uuid
  }

  lemma SeenIsRecent(rt: Runtime, uuid: string)
    requires Inv(rt)
    ensures uuid in rt.seenSends <==> RecentlyDelivered(rt, uuid)
  {
    hide Books, Unique, Named, NoRepeats;
    var n := |rt.delivered|;
    var cut := if n > 64 then n - 64 else 0;
    assert rt.seenSends == rt.delivered[cut..];
    if uuid in rt.seenSends {
      var k :| 0 <= k < |rt.seenSends| && rt.seenSends[k] == uuid;
      assert rt.delivered[cut + k] == uuid;
    }
    if i :| 0 <= i < n && i >= n - 64 && rt.delivered[i] == uuid {
      assert rt.seenSends[i - cut] == uuid;
    }
  }

  /** The places of the threads in a turn, or with a driver. */
  ghost function Places(threads: Threads, p: Runtime -> bool): set<nat> {
    set i: nat | i < |threads| && p(threads[i].1)
  }

  lemma PlacesSnoc(threads: Threads, last: (string, Runtime), p: Runtime -> bool)
    ensures |Places(threads + [last], p)| == |Places(threads, p)| + One(p(last.1))
  {
    var n, more := |threads|, threads + [last];
    assert forall i: nat | i < n :: more[i] == threads[i];
    assert more[n] == last;
    assert n !in Places(threads, p);
    assert Places(more, p) == if p(last.1) then Places(threads, p) + {n} else Places(threads, p);
  }

  predicate InATurn(rt: Runtime) {
    rt.driver.Some? && (rt.driver.value.sendAccepted || rt.driver.value.turn)
  }

  predicate HasDriver(rt: Runtime) {
    rt.driver.Some?
  }

  /** The two counts the caps are held against count threads with a turn in flight, and threads with a driver. */
  lemma {:induction false} CountsAre(threads: Threads)
    ensures TurnsInFlight(threads) == |Places(threads, (rt: Runtime) => InATurn(rt))|
    ensures LiveSessions(threads) == |Places(threads, (rt: Runtime) => HasDriver(rt))|
    decreases |threads|
  {
    hide Places, TurnsInFlight, LiveSessions;
    if threads == [] {
      NoPlaces((rt: Runtime) => InATurn(rt));
      NoPlaces((rt: Runtime) => HasDriver(rt));
    } else {
      var n := |threads| - 1;
      CountsAre(threads[..n]);
      assert threads == threads[..n] + [threads[n]];
      CountsAppend(threads[..n], threads[n]);
      PlacesSnoc(threads[..n], threads[n], (rt: Runtime) => InATurn(rt));
      PlacesSnoc(threads[..n], threads[n], (rt: Runtime) => HasDriver(rt));
    }
  }

  lemma NoPlaces(p: Runtime -> bool)
    ensures Places([], p) == {} && TurnsInFlight([]) == LiveSessions([]) == 0
  {
  }

  lemma {:induction false} CountsAppend(threads: Threads, last: (string, Runtime))
    ensures TurnsInFlight(threads + [last]) == TurnsInFlight(threads) + One(Running(last.1))
    ensures LiveSessions(threads + [last]) == LiveSessions(threads) + One(last.1.driver.Some?)
    decreases |threads|
  {
    if threads == [] {
      assert threads + [last] == [last] && [last][1..] == [];
    } else {
      assert (threads + [last])[1..] == threads[1..] + [last];
      CountsAppend(threads[1..], last);
    }
  }

  /** A cap is reached: as many as it allows are there. */
  predicate Full(count: nat, cap: Option<nat>) {
    cap.Some? && cap.value <= count
  }

  /**
   * What each send is answered, the reasons in the original's order: an unknown thread, a message delivered recently, a
   * turn in flight here or as many as allowed elsewhere, a thread nothing can start, no room for its driver, a driver that
   * does not start; else it is accepted. Only an accepted message is delivered, and only a start that failed leaves a mark.
   */
  lemma SendIsAnswered(l: Limits, caps: Caps, threads: Threads, step: Step, ts: int)
    requires HostInv(caps, threads) && step.Send?
    ensures
      var (after, reply) := SendTo(l, caps, threads, step, ts);
      match Get(threads, step.thread)
      case None => reply == NotFound && after == threads
      case Some(rt) =>
        var busy, live := InATurn(rt), HasDriver(rt);
        if RecentlyDelivered(rt, step.uuid) then reply == AlreadySeen && after == threads
        else if busy || Full(TurnsInFlight(threads), caps.maxTurns) then reply == Conflict && after == threads
        else if !live && !rt.recipe then reply == NotFound && after == threads
        else if !live && Full(LiveSessions(threads), caps.maxLive) then reply == Conflict && after == threads
        else if !live && step.start != Works then
          reply == Internal && after == Put(threads, step.thread, Started(l, rt, step.start, step.rest, ts))
        else
          && reply == Accepted
          && var ready := if live then rt else Started(l, rt, Works, step.rest, ts);
          && ready.driver.Some?
          && after == Put(threads, step.thread, Sent(l, ready, step.uuid, step.rest, ts))
  {
    hide Inv, Started, Sent, Put, TurnsInFlight, LiveSessions, RecentlyDelivered;
    match Get(threads, step.thread) {
      case None =>
      case Some(rt) =>
        SeenIsRecent(rt, step.uuid);
        if rt.driver.None? {
          StartedKeepsInv(l, rt, step.start, step.rest, ts);
        }
    }
  }

  /**
   * Opening a thread: a live one is adopted as it is; at the cap on sessions nothing starts; otherwise a driver is
   * started, and the recipe stored exactly when it came up, or there was one before. Other threads never move.
   */
  lemma OpenDoes(l: Limits, caps: Caps, threads: Threads, step: Step, ts: int, other: string)
    requires HostInv(caps, threads) && step.Open?
    ensures
      var after := Opened(l, caps, threads, step, ts);
      var rt := if Has(threads, step.thread) then Get(threads, step.thread).value else NewRuntime(FRESH);
      var r := Started(l, rt, step.start, step.rest, ts);
      && (other != step.thread ==> Get(after, other) == Get(threads, other))
      && Get(after, step.thread)
         == Some(if rt.driver.Some? || Full(LiveSessions(threads), caps.maxLive) then rt
                 else r.(recipe := rt.recipe || step.start == Works))
  {
    hide Inv, Started, Put, LiveSessions;
    var rt := if Has(threads, step.thread) then Get(threads, step.thread).value else NewRuntime(FRESH);
    NewKeepsInv();
    if rt.driver.None? {
      StartedKeepsInv(l, rt, step.start, step.rest, ts);
    }
    var r := Started(l, rt, step.start, step.rest, ts);
    var kept := if rt.driver.Some? || Full(LiveSessions(threads), caps.maxLive) then rt
                else r.(recipe := rt.recipe || step.start == Works);
    GetPut(threads, step.thread, kept, other);
    GetPut(threads, step.thread, kept, step.thread);
  }
}
