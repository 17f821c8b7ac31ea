/**
 * The session host across a crash (`daemon/threadHost.ts:101-111, 148-177`): every thread's journal is the memory of a
 * store that flushes boundary events at once, so what the next process finds of a running turn or an open request can be
 * said exactly, and it closes each request it finds once.
 */
module Restarts {
  import opened Common
  import opened OrderedMap
  import opened Wire
  import opened LogParser
  import opened MemoryJournal
  import opened DiskJournals
  import opened DiskRequests
  import opened ThreadRecovery
  import opened BoundaryEvents
  import opened ThreadHosts
  import D = DiskDurability

  // ---- the journal of a thread is the memory of a store -------------------------------------------------------

  ghost predicate OnDisk(cfg: Config, j: Journal) {
    exists s :: Life(cfg, s) && s.mem == j
  }

  lemma AppendedOnDisk(cfg: Config, j: Journal, event: WireEvent, ts: int)
    requires DaemonConfig(cfg) && OnDisk(cfg, j)
    ensures OnDisk(cfg, Appended(cfg.limits, j, event, ts))
  {
    hide Life, DaemonConfig, AppendedTo, Appended;
    var s :| Life(cfg, s) && s.mem == j;
    AppendKeepsLife(cfg, s, event, ts);
    LifeIsOpen(cfg, s);
    AppendMem(cfg, s, event, ts);
  }

  lemma LifeIsOpen(cfg: Config, s: Store)
    requires Life(cfg, s)
    ensures !s.closed
  {
    OpenStore(cfg, s);
  }

  lemma {:induction false} EachOnDisk(cfg: Config, j: Journal, events: seq<WireEvent>, ts: int)
    requires DaemonConfig(cfg) && OnDisk(cfg, j)
    ensures OnDisk(cfg, AppendEach(cfg.limits, j, events, ts))
    decreases |events|
  {
    hide OnDisk, DaemonConfig, Appended;
    if events != [] {
      AppendedOnDisk(cfg, j, events[0], ts);
      EachOnDisk(cfg, Appended(cfg.limits, j, events[0], ts), events[1..], ts);
    }
  }

  lemma TrimmedOnDisk(cfg: Config, j: Journal, now: int, seqNo: int)
    requires DaemonConfig(cfg) && OnDisk(cfg, j)
    ensures OnDisk(cfg, Compacted(cfg.limits, j, now)) && OnDisk(cfg, Acked(j, seqNo))
  {
    hide Life, DaemonConfig, CompactedTo, Compacted, Acked;
    var s :| Life(cfg, s) && s.mem == j;
    LifeIsOpen(cfg, s);
    DoneKeepsLife(cfg, s, BoundaryEvents.Op.Compact(now));
    DoneKeepsLife(cfg, s, BoundaryEvents.Op.Ack(seqNo));
    CompactedAtRest(cfg, s, now);
    assert CompactedTo(cfg, s, now).mem == Compacted(cfg.limits, j, now);
    assert AckedBy(s, seqNo).mem == Acked(j, seqNo);
  }

  lemma FreshOnDisk(cfg: Config)
    requires DaemonConfig(cfg)
    ensures OnDisk(cfg, FRESH)
  {
    hide Life, Recovered;
    OpensFresh(cfg);
    RecoveredLives(cfg, EMPTY_DISK, "e1");
    assert Life(cfg, Recovered(cfg, EMPTY_DISK, "e1"));
  }

  // ---- each operation of the host -----------------------------------------------------------------------------

  /** What a thread went through is appends: `b` is `a` with events appended to its journal, all else aside. */
  ghost predicate Appends(l: Limits, a: Runtime, b: Runtime, ts: int) {
    exists events :: AppendEach(l, a.journal, events, ts) == b.journal
  }

  lemma NoneAppended(l: Limits, a: Runtime, b: Runtime, ts: int)
    requires a.journal == b.journal
    ensures Appends(l, a, b, ts)
  {
    hide Appended;
    assert AppendEach(l, a.journal, [], ts) == b.journal;
  }

  lemma OneAppended(l: Limits, a: Runtime, b: Runtime, event: WireEvent, ts: int)
    requires b.journal == Appended(l, a.journal, event, ts)
    ensures Appends(l, a, b, ts)
  {
    hide Appended;
    assert AppendEach(l, b.journal, [], ts) == b.journal && [event][1..] == [];
    assert AppendEach(l, a.journal, [event], ts) == b.journal;
  }

  lemma Appends2(l: Limits, a: Runtime, b: Runtime, c: Runtime, ts: int)
    requires Appends(l, a, b, ts) && Appends(l, b, c, ts)
    ensures Appends(l, a, c, ts)
  {
    hide AppendEach;
    var x :| AppendEach(l, a.journal, x, ts) == b.journal;
    var y :| AppendEach(l, b.journal, y, ts) == c.journal;
    AppendEachConcat(l, a.journal, x, y, ts);
  }

  lemma AppendsOnDisk(cfg: Config, a: Runtime, b: Runtime, ts: int)
    requires DaemonConfig(cfg) && OnDisk(cfg, a.journal) && Appends(cfg.limits, a, b, ts)
    ensures OnDisk(cfg, b.journal)
  {
    hide AppendEach, DaemonConfig, OnDisk;
    var x :| AppendEach(cfg.limits, a.journal, x, ts) == b.journal;
    EachOnDisk(cfg, a.journal, x, ts);
  }

  lemma EmittedAppends(l: Limits, rt: Runtime, gen: nat, event: WireEvent, ts: int)
    ensures Appends(l, rt, Emitted(l, rt, gen, event, ts), ts)
  {
    hide Appends, Appended;
    if rt.gen == gen {
      OneAppended(l, rt, Emitted(l, rt, gen, event, ts), event, ts);
    } else {
      NoneAppended(l, rt, rt, ts);
    }
  }

  lemma {:induction false} EmittedEachAppends(l: Limits, rt: Runtime, gen: nat, events: seq<WireEvent>, ts: int)
    ensures Appends(l, rt, EmittedEach(l, rt, gen, events, ts), ts)
    decreases |events|
  {
    hide Appends, Emitted;
    if events == [] {
      NoneAppended(l, rt, rt, ts);
    } else {
      var r := Emitted(l, rt, gen, events[0], ts);
      EmittedAppends(l, rt, gen, events[0], ts);
      EmittedEachAppends(l, r, gen, events[1..], ts);
      Appends2(l, rt, r, EmittedEach(l, r, gen, events[1..], ts), ts);
    }
  }

  lemma StateAppends(l: Limits, rt: Runtime, rest: int, ts: int)
    ensures Appends(l, rt, StateEmitted(l, rt, rest, ts), ts)
  {
    hide Appends, Emitted;
    NoneAppended(l, rt, rt, ts);
    if rt.driver.Some? {
      var d := rt.driver.value;
      var r := rt.(driver := Some(d.(lastKey := Some((InTurn(d), rest)))));
      NoneAppended(l, rt, r, ts);
      EmittedAppends(l, r, d.gen, SessionState(InTurn(d)), ts);
      Appends2(l, rt, r, Emitted(l, r, d.gen, SessionState(InTurn(d)), ts), ts);
    }
  }

  lemma WithdrawnAppends(l: Limits, rt: Runtime, id: string, outcome: string, ts: int)
    ensures Appends(l, rt, Withdrawn(l, rt, id, outcome, ts), ts)
  {
    hide Appends, Emitted;
    NoneAppended(l, rt, rt, ts);
    if rt.driver.Some? {
      var d := rt.driver.value;
      var r := rt.(driver := Some(d.(pending := Delete(d.pending, id))), unblocked := rt.unblocked + [id]);
      NoneAppended(l, rt, r, ts);
      EmittedAppends(l, r, d.gen, RequestResolved(id, outcome), ts);
      Appends2(l, rt, r, Emitted(l, r, d.gen, RequestResolved(id, outcome), ts), ts);
    }
  }

  lemma {:induction false} WithdrawnEachAppends(l: Limits, rt: Runtime, ids: seq<string>, outcome: string, ts: int)
    ensures Appends(l, rt, WithdrawnEach(l, rt, ids, outcome, ts), ts)
    decreases |ids|
  {
    hide Appends, Withdrawn;
    if ids == [] {
      NoneAppended(l, rt, rt, ts);
    } else {
      var r := Withdrawn(l, rt, ids[0], outcome, ts);
      WithdrawnAppends(l, rt, ids[0], outcome, ts);
      WithdrawnEachAppends(l, r, ids[1..], outcome, ts);
      Appends2(l, rt, r, WithdrawnEach(l, r, ids[1..], outcome, ts), ts);
    }
  }

  lemma {:induction false} ToolsCanceledAppends(l: Limits, rt: Runtime, ids: seq<string>, ts: int)
    ensures Appends(l, rt, ToolsCanceled(l, rt, ids, ts), ts)
    decreases |ids|
  {
    hide Appends, ToolClosed;
    if ids == [] {
      NoneAppended(l, rt, rt, ts);
    } else {
      var r := ToolClosed(l, rt, ids[0], ToolCancel(ids[0]), ts);
      ToolClosedAppends(l, rt, ids[0], ToolCancel(ids[0]), ts);
      ToolsCanceledAppends(l, r, ids[1..], ts);
      Appends2(l, rt, r, ToolsCanceled(l, r, ids[1..], ts), ts);
    }
  }

  lemma ToolClosedAppends(l: Limits, rt: Runtime, id: string, closing: WireEvent, ts: int)
    ensures Appends(l, rt, ToolClosed(l, rt, id, closing, ts), ts)
  {
    hide Appends, Appended;
    if id in rt.tools {
      OneAppended(l, rt, ToolClosed(l, rt, id, closing, ts), closing, ts);
    } else {
      NoneAppended(l, rt, rt, ts);
    }
  }

  lemma {:induction false} ClosedEachAppends(l: Limits, rt: Runtime, events: seq<WireEvent>, ts: int)
    ensures Appends(l, rt, ClosedEach(l, rt, events, ts), ts)
    decreases |events|
  {
    hide Appends, Appended;
    if events == [] {
      NoneAppended(l, rt, rt, ts);
    } else {
      var r := ThreadHosts.Logged(l, rt, events[0], ts);
      OneAppended(l, rt, r, events[0], ts);
      ClosedEachAppends(l, r, events[1..], ts);
      Appends2(l, rt, r, ClosedEach(l, r, events[1..], ts), ts);
    }
  }

  lemma InterruptAppends(l: Limits, rt: Runtime, ts: int)
    ensures Appends(l, rt, AllWithdrawn(l, ToolsCanceled(l, rt, rt.tools, ts), ts), ts)
  {
    hide Appends, ToolsCanceled, WithdrawnEach;
    var r := ToolsCanceled(l, rt, rt.tools, ts);
    ToolsCanceledAppends(l, rt, rt.tools, ts);
    if r.driver.Some? {
      WithdrawnEachAppends(l, r, Ids(r.driver.value.pending), "canceled", ts);
      Appends2(l, rt, r, AllWithdrawn(l, r, ts), ts);
    }
  }

  lemma StoppedAppends(l: Limits, rt: Runtime, last: seq<WireEvent>, native: string, ts: int)
    ensures Appends(l, rt, Stopped(l, rt, last, native, ts), ts)
  {
    hide Appends, ToolsCanceled, AllWithdrawn, EmittedEach, ClosedEach, Appended, Closings;
    if rt.driver.None? {
      NoneAppended(l, rt, rt, ts);
    } else {
      var d := rt.driver.value;
      var a := AllWithdrawn(l, ToolsCanceled(l, rt, rt.tools, ts), ts);
      var closed := EmittedEach(l, a, d.gen, last, ts);
      var over := closed.(gen := closed.gen + 1, driver := None, ended := closed.ended + {d.gen});
      var closings := Closings(over.journal.checkpoint.openRequests, "canceled");
      var swept := ClosedEach(l, over, closings, ts);
      var idle := if InTurn(d) then ThreadHosts.Logged(l, swept, Interrupted(native), ts) else swept;
      InterruptAppends(l, rt, ts);
      EmittedEachAppends(l, a, d.gen, last, ts);
      Appends2(l, rt, a, closed, ts);
      NoneAppended(l, closed, over, ts);
      Appends2(l, rt, closed, over, ts);
      ClosedEachAppends(l, over, closings, ts);
      Appends2(l, rt, over, swept, ts);
      if InTurn(d) {
        OneAppended(l, swept, idle, Interrupted(native), ts);
        Appends2(l, rt, swept, idle, ts);
      }
      OneAppended(l, idle, Stopped(l, rt, last, native, ts), SessionState(false), ts);
      Appends2(l, rt, idle, Stopped(l, rt, last, native, ts), ts);
    }
  }

  lemma AskedAppends(l: Limits, rt: Runtime, kind: RequestKind, id: string, rest: int, ts: int)
    ensures Appends(l, rt, Asked(l, rt, kind, id, rest, ts), ts)
  {
    hide Appends, Emitted, StateEmitted, Put;
    NoneAppended(l, rt, rt, ts);
    if rt.driver.Some? {
      var d := rt.driver.value;
      var r := rt.(driver := Some(d.(pending := Put(d.pending, id, kind))));
      var e := Emitted(l, r, d.gen, Request(kind, id), ts);
      NoneAppended(l, rt, r, ts);
      EmittedAppends(l, r, d.gen, Request(kind, id), ts);
      Appends2(l, rt, r, e, ts);
      StateAppends(l, e, rest, ts);
      Appends2(l, rt, e, StateEmitted(l, e, rest, ts), ts);
    }
  }

  lemma HandedAppends(l: Limits, rt: Runtime, ok: bool, ts: int)
    ensures Appends(l, rt, Acted(l, rt, Handed(ok), ts), ts)
  {
    hide Appends, Emitted;
    NoneAppended(l, rt, rt, ts);
    if rt.driver.Some? {
      var d := rt.driver.value;
      var r := rt.(driver := Some(d.(sendAccepted := false, turn := ok || d.turn)));
      NoneAppended(l, rt, r, ts);
      EmittedAppends(l, r, d.gen, Failed("Error"), ts);
      Appends2(l, rt, r, Emitted(l, r, d.gen, Failed("Error"), ts), ts);
    }
  }

  lemma StartedAppends(l: Limits, rt: Runtime, start: Start, rest: int, ts: int)
    ensures Appends(l, rt, Started(l, rt, start, rest, ts), ts)
  {
    hide Appends, StateEmitted;
    var r := rt.(gen := rt.gen + 1, driver := Some(Driver(rt.gen + 1, [], false, false, None)));
    NoneAppended(l, rt, r, ts);
    StateAppends(l, r, rest, ts);
    Appends2(l, rt, r, StateEmitted(l, r, rest, ts), ts);
    if start == ThrowsLate {
      NoneAppended(l, StateEmitted(l, r, rest, ts), Started(l, rt, start, rest, ts), ts);
      Appends2(l, rt, StateEmitted(l, r, rest, ts), Started(l, rt, start, rest, ts), ts);
    } else if start == ThrowsEarly {
      NoneAppended(l, rt, Started(l, rt, start, rest, ts), ts);
    }
  }

  lemma SentAppends(l: Limits, rt: Runtime, uuid: string, rest: int, ts: int)
    requires rt.driver.Some?
    ensures Appends(l, rt, Sent(l, rt, uuid, rest, ts), ts)
  {
    hide Appends, StateEmitted;
    var r := rt.(driver := Some(rt.driver.value.(sendAccepted := true)));
    NoneAppended(l, rt, r, ts);
    StateAppends(l, r, rest, ts);
    Appends2(l, rt, r, StateEmitted(l, r, rest, ts), ts);
    NoneAppended(l, StateEmitted(l, r, rest, ts), Sent(l, rt, uuid, rest, ts), ts);
    Appends2(l, rt, StateEmitted(l, r, rest, ts), Sent(l, rt, uuid, rest, ts), ts);
  }

  lemma ActedAppends(l: Limits, rt: Runtime, action: Action, ts: int)
    requires !action.Heard? && !action.Trimmed?
    ensures Appends(l, rt, Acted(l, rt, action, ts), ts)
  {
    hide Appends, Appended, ToolsCanceled, AllWithdrawn, WithdrawnEach, Withdrawn, StateEmitted, Stopped, Emitted, Asked;
    hide ToolClosed;
    NoneAppended(l, rt, rt, ts);
    match action {
      case Interrupt => InterruptAppends(l, rt, ts);
      case Resolve(kind, id) =>
        if Answered(l, rt, kind, id, ts).1 {
          OneAppended(l, rt, Answered(l, rt, kind, id, ts).0, RequestResolved(id, "resolved"), ts);
        }
      case Stop(last, native) => StoppedAppends(l, rt, last, native, ts);
      case Ask(kind, id, rest) => AskedAppends(l, rt, kind, id, rest, ts);
      case Withdraw(id, outcome) => WithdrawnAppends(l, rt, id, outcome, ts);
      case WithdrawKind(kind) =>
        if rt.driver.Some? {
          WithdrawnEachAppends(l, rt, IdsOfKind(rt.driver.value.pending, kind), "canceled", ts);
        }
      case Says(event) =>
        if rt.driver.Some? {
          EmittedAppends(l, rt, rt.driver.value.gen, event, ts);
        }
      case ShowState(rest) => StateAppends(l, rt, rest, ts);
      case Handed(ok) => HandedAppends(l, rt, ok, ts);
      case TurnEnds => NoneAppended(l, rt, Acted(l, rt, action, ts), ts);
      case Late(gen, event) => EmittedAppends(l, rt, gen, event, ts);
      case ToolMade(id) => OneAppended(l, rt, ToolOpened(l, rt, id, ts), ToolCall(id), ts);
      case ToolDone(id, closing) => ToolClosedAppends(l, rt, id, closing, ts);
    }
  }

  lemma ActedOnDisk(cfg: Config, rt: Runtime, action: Action, ts: int)
    requires DaemonConfig(cfg) && OnDisk(cfg, rt.journal)
    ensures OnDisk(cfg, Acted(cfg.limits, rt, action, ts).journal)
  {
    hide OnDisk, DaemonConfig, Appends;
    if action.Heard? {
      TrimmedOnDisk(cfg, rt.journal, 0, action.seqNo);
    } else if action.Trimmed? {
      TrimmedOnDisk(cfg, rt.journal, action.now, 0);
    } else {
      ActedAppends(cfg.limits, rt, action, ts);
      AppendsOnDisk(cfg, rt, Acted(cfg.limits, rt, action, ts), ts);
    }
  }

  lemma {:induction false} StoreEachLives(cfg: Config, s: Store, events: seq<WireEvent>, ts: int)
    requires DaemonConfig(cfg) && Life(cfg, s)
    ensures Life(cfg, StoreEach(cfg, s, events, ts))
    decreases |events|
  {
    hide Life, DaemonConfig, AppendedTo;
    if events != [] {
      AppendKeepsLife(cfg, s, events[0], ts);
      StoreEachLives(cfg, AppendedTo(cfg, s, events[0], ts), events[1..], ts);
    }
  }

  lemma RebornLives(image: Image)
    requires DaemonConfig(image.cfg) && Readable(image)
    ensures Life(image.cfg, Reborn(image))
  {
    hide Life, Recovered, RecoveryEvents, CompactedTo, StoreEach, Flushed, Settled, ReadLog;
    var cfg := image.cfg;
    RecoveredLives(cfg, image.disk, image.epoch);
    var s := Recovered(cfg, image.disk, image.epoch);
    var events := RecoveryEvents(s.mem.checkpoint, image.native);
    StoreEachLives(cfg, s, events, image.ts);
    DoneKeepsLife(cfg, StoreEach(cfg, s, events, image.ts), BoundaryEvents.Op.Flush(true));
    DoneKeepsLife(cfg, ClosedOut(cfg, s, image.native, image.ts), BoundaryEvents.Op.Compact(image.now));
  }

  lemma RebornOnDisk(image: Image)
    requires DaemonConfig(image.cfg) && Readable(image)
    ensures OnDisk(image.cfg, Reborn(image).mem)
  {
    hide Life, DaemonConfig, Readable, Reborn;
    RebornLives(image);
  }

  // ---- whole runs ---------------------------------------------------------------------------------------------

  ghost predicate AllOnDisk(cfg: Config, threads: Threads) {
    forall t | Has(threads, t) :: OnDisk(cfg, Get(threads, t).value.journal)
  }

  /** Each process of the run is configured alike. */
  ghost predicate Alike(cfg: Config, step: Step) {
    step.Restart? ==> forall pair | pair in step.images :: pair.1.cfg == cfg
  }

  lemma PutOnDisk(cfg: Config, threads: Threads, t: string, rt: Runtime)
    requires AllOnDisk(cfg, threads) && OnDisk(cfg, rt.journal)
    ensures AllOnDisk(cfg, Put(threads, t, rt))
  {
    hide OnDisk, Put, Get;
    forall x | Has(Put(threads, t, rt), x) ensures OnDisk(cfg, Get(Put(threads, t, rt), x).value.journal) {
      GetPut(threads, t, rt, x);
    }
  }

  lemma {:induction false} RestartedOnDisk(cfg: Config, images: Pairs<string, Image>)
    requires DaemonConfig(cfg) && forall pair | pair in images :: Readable(pair.1) && pair.1.cfg == cfg
    ensures AllOnDisk(cfg, Restarted(images))
  {
    hide OnDisk, DaemonConfig, Reborn, Readable;
    if images != [] {
      assert images[0] in images && forall pair | pair in images[1..] :: pair in images;
      RebornOnDisk(images[0].1);
      RestartedOnDisk(cfg, images[1..]);
      assert Restarted(images)[1..] == Restarted(images[1..]);
      forall t | Has(Restarted(images), t) ensures OnDisk(cfg, Get(Restarted(images), t).value.journal) {
        assert t != images[0].0 ==> Get(Restarted(images), t) == Get(Restarted(images[1..]), t);
      }
    }
  }

  lemma StartedOnDisk(cfg: Config, rt: Runtime, start: Start, rest: int, ts: int)
    requires DaemonConfig(cfg) && OnDisk(cfg, rt.journal)
    ensures OnDisk(cfg, Started(cfg.limits, rt, start, rest, ts).journal)
  {
    hide OnDisk, DaemonConfig, Appends;
    StartedAppends(cfg.limits, rt, start, rest, ts);
    AppendsOnDisk(cfg, rt, Started(cfg.limits, rt, start, rest, ts), ts);
  }

  lemma SentOnDisk(cfg: Config, rt: Runtime, uuid: string, rest: int, ts: int)
    requires DaemonConfig(cfg) && OnDisk(cfg, rt.journal) && rt.driver.Some?
    ensures OnDisk(cfg, Sent(cfg.limits, rt, uuid, rest, ts).journal)
  {
    hide OnDisk, DaemonConfig, Appends;
    SentAppends(cfg.limits, rt, uuid, rest, ts);
    AppendsOnDisk(cfg, rt, Sent(cfg.limits, rt, uuid, rest, ts), ts);
  }

  lemma OpenedOnDisk(cfg: Config, caps: Caps, threads: Threads, step: Step, ts: int)
    requires DaemonConfig(cfg) && AllOnDisk(cfg, threads) && step.Open?
    ensures AllOnDisk(cfg, Opened(cfg.limits, caps, threads, step, ts))
  {
    hide OnDisk, DaemonConfig, Started, Put;
    var rt := match Get(threads, step.thread) case Some(r) => r case None => NewRuntime(FRESH);
    FreshOnDisk(cfg);
    PutOnDisk(cfg, threads, step.thread, rt);
    StartedOnDisk(cfg, rt, step.start, step.rest, ts);
    var r := Started(cfg.limits, rt, step.start, step.rest, ts);
    PutOnDisk(cfg, threads, step.thread, r.(recipe := r.driver.Some? || rt.recipe));
  }

  lemma SendOnDisk(cfg: Config, caps: Caps, threads: Threads, step: Step, ts: int)
    requires DaemonConfig(cfg) && AllOnDisk(cfg, threads) && step.Send?
    ensures AllOnDisk(cfg, SendTo(cfg.limits, caps, threads, step, ts).0)
  {
    hide OnDisk, DaemonConfig, Started, Sent, Put, TurnsInFlight, LiveSessions;
    var l := cfg.limits;
    if Has(threads, step.thread) {
      var rt := Get(threads, step.thread).value;
      if rt.driver.Some? {
        SentOnDisk(cfg, rt, step.uuid, step.rest, ts);
        PutOnDisk(cfg, threads, step.thread, Sent(l, rt, step.uuid, step.rest, ts));
      } else {
        var r := Started(l, rt, step.start, step.rest, ts);
        StartedOnDisk(cfg, rt, step.start, step.rest, ts);
        PutOnDisk(cfg, threads, step.thread, r);
        if r.driver.Some? {
          SentOnDisk(cfg, r, step.uuid, step.rest, ts);
          PutOnDisk(cfg, threads, step.thread, Sent(l, r, step.uuid, step.rest, ts));
        }
      }
    }
  }

  lemma StepOnDisk(cfg: Config, caps: Caps, threads: Threads, step: Step, ts: int)
    requires DaemonConfig(cfg) && AllOnDisk(cfg, threads) && Enabled(threads, step) && Alike(cfg, step)
    ensures AllOnDisk(cfg, Next(cfg.limits, caps, threads, step, ts))
  {
    hide OnDisk, DaemonConfig, Opened, SendTo, Acted, Restarted, Readable;
    match step {
      case Open(_, _, _) => OpenedOnDisk(cfg, caps, threads, step, ts);
      case Send(_, _, _, _) => SendOnDisk(cfg, caps, threads, step, ts);
      case Act(t, action) =>
        if Has(threads, t) {
          ActedOnDisk(cfg, Get(threads, t).value, action, ts);
          PutOnDisk(cfg, threads, t, Acted(cfg.limits, Get(threads, t).value, action, ts));
        }
      case Restart(images) => RestartedOnDisk(cfg, images);
    }
  }

  /** Over every run, restarts included, each thread's journal is the memory of a store that holds no boundary event back. */
  lemma {:induction false} RunsStayOnDisk(
      cfg: Config, caps: Caps, threads: Threads, steps: seq<(Step, int)>, end: Threads)
    requires DaemonConfig(cfg) && AllOnDisk(cfg, threads) && IsRun(cfg.limits, caps, threads, steps, end)
    requires forall s | s in steps :: Alike(cfg, s.0)
    ensures AllOnDisk(cfg, end)
    decreases |steps|
  {
    hide AllOnDisk, Enabled, Next, Alike, DaemonConfig;
    if steps != [] {
      assert steps[0] in steps && forall s | s in steps[1..] :: s in steps;
      StepOnDisk(cfg, caps, threads, steps[0].0, steps[0].1);
      RunsStayOnDisk(cfg, caps, Next(cfg.limits, caps, threads, steps[0].0, steps[0].1), steps[1..], end);
    }
  }

  // ---- requests across a crash --------------------------------------------------------------------------------

  lemma {:induction false} ClosesAppend(a: seq<WireEvent>, b: seq<WireEvent>, id: string)
    ensures Closes(a + b, id) == Closes(a, id) + Closes(b, id)
    decreases |b|
  {
    if b == [] {
      assert a + b == a;
    } else {
      var n := |b| - 1;
      Associate(a, b[..n], [b[n]]);
      assert b == b[..n] + [b[n]];
      ClosesAppend(a, b[..n], id);
      CountStep(a + b[..n], b[n], id);
    }
  }

  ghost predicate OpenUnder(open: seq<Entry>, id: string) {
    exists e :: e in open && OpenId(e) == Some(id)
  }

  lemma OpenUnderStep(open: seq<Entry>, id: string)
    requires open != []
    ensures OpenUnder(open, id) <==> OpenId(open[0]) == Some(id) || OpenUnder(open[1..], id)
    ensures UniqueIds(open) && OpenId(open[0]) == Some(id) ==> !OpenUnder(open[1..], id)
  {
    hide OpenId;
    assert open[0] in open && forall e :: e in open <==> e == open[0] || e in open[1..];
  }

  lemma {:induction false} ClosingsOnce(open: seq<Entry>, outcome: string, id: string)
    requires UniqueIds(open)
    ensures Closes(Closings(open, outcome), id) == One(OpenUnder(open, id))
  {
    hide OpenId, OpenUnder;
    if open == [] {
      assert !OpenUnder(open, id) by { NoneUnder(id); }
    } else {
      OpenUnderStep(open, id);
      var rest := open[1..];
      var first := match OpenId(open[0]) case Some(x) => [RequestResolved(x, outcome)] case None => [];
      ClosesAppend(first, Closings(rest, outcome), id);
      ClosingsOnce(rest, outcome, id);
      if OpenId(open[0]).Some? {
        OpenIdsAreNames(open[0]);
        CountStep([], first[0], id);
        assert [] + [first[0]] == first;
      }
    }
  }

  lemma NoneUnder(id: string)
    ensures !OpenUnder([], id)
  {
  }

  lemma RecoveryClosesOnce(cp: Checkpoint, native: string, id: string)
    requires UniqueIds(cp.openRequests)
    ensures Closes(RecoveryEvents(cp, native), id) == One(OpenUnder(cp.openRequests, id))
  {
    hide Closings;
    ClosingsOnce(cp.openRequests, "expired", id);
    var tail := if TurnOpen(cp) then TurnClosers(native) else [];
    ClosesAppend(Closings(cp.openRequests, "expired"), tail, id);
    TurnClosersCloseNone(native, id);
  }

  lemma TurnClosersCloseNone(native: string, id: string)
    ensures Closes(TurnClosers(native), id) == 0
  {
    hide Closes;
    var a, b, c := Failed("daemon_restarted"), Interrupted(native), SessionState(false);
    assert TurnClosers(native) == [a] + ([b] + [c]);
    ClosesOne(a, id);
    ClosesOne(b, id);
    ClosesOne(c, id);
    ClosesAppend([b], [c], id);
    ClosesAppend([a], [b] + [c], id);
  }

  lemma ClosesOne(event: WireEvent, id: string)
    ensures Closes([event], id) == One(Classify(event) == RequestClose(id))
  {
    CountStep([], event, id);
    assert [] + [event] == [event];
  }

  lemma RestoredUnique(cfg: Config, disk: Disk)
    ensures UniqueIds(RecoveredMem(cfg, disk).checkpoint.openRequests)
  {
    hide FoldAll, Above, ReadLog;
    ReadIncreasing(cfg.codec, disk.log);
    RefoldKeepsLateRequests(cfg.limits.checkpointMessages, ReadLog(cfg.codec, disk.log).entries, LowWaterOf(disk.idx));
  }

  lemma {:induction false} WaitingIsOpen(open: seq<Entry>, id: string)
    ensures Waiting(open, id).Some? <==> OpenUnder(open, id)
  {
    if open != [] {
      WaitingIsOpen(open[1..], id);
      OpenUnderStep(open, id);
    }
  }

  /**
   * A crash at any byte of a write, for a thread in any state its invariant allows: the next process closes each request
   * that was pending with the driver or open as a host-tool call exactly once, provided its record had not been evicted,
   * and closes no other.
   */
  lemma PendingExpiresOnce(cfg: Config, rt: Runtime, s: Store, k: nat, epoch: string, native: string, id: string)
    requires ThreadHosts.Inv(rt) && Life(cfg, s) && s.mem == rt.journal
    requires k <= |Serialize(cfg.codec, s.buffer)| && !KnowsEpoch(s.disk.idx, epoch)
    ensures
      var open := rt.journal.checkpoint.openRequests;
      var kept := exists e :: e in open && OpenId(e) == Some(id) && e.seqNo > rt.journal.lowWater;
      && Closes(RecoveryEvents(RecoveredMem(cfg, D.Torn(cfg, s, k)).checkpoint, native), id) == One(kept)
      && (Expected(rt, id).Some? <==> OpenUnder(open, id))
      && (kept ==> Expected(rt, id).Some?)
  {
    hide Life, RecoveredMem, RecoveryEvents, Closes, OpenId, UniqueIds, Frame;
    RequestsSurviveCrash(cfg, s, k, epoch);
    RestoredUnique(cfg, D.Torn(cfg, s, k));
    RecoveryClosesOnce(RecoveredMem(cfg, D.Torn(cfg, s, k)).checkpoint, native, id);
    WaitingIsOpen(rt.journal.checkpoint.openRequests, id);
    assert Books(rt, id);
  }

  // ---- sends across a crash -----------------------------------------------------------------------------------

  /** Unless a journal may hold no entry at all, the entry just appended is never evicted. */
  lemma NewestIsRetained(l: Limits, j: Journal, event: WireEvent, ts: int)
    requires Valid(l, j) && l.maxEntries != Some(0)
    ensures Appended(l, j, event, ts).lowWater <= j.lastSeq
  {
    hide AckFloor, DropTokens, SizeOf, Over, Evicted, EvictCount, Increasing, Fold;
    var e := NextEntry(j, event, ts);
    var p := Pushed(l, j, e);
    PushedValid(l, j, event, ts);
    if Over(l, |p.entries|, p.bytes) {
      var k := WithoutAckedTokens(l, p);
      WithoutAckedTokensValid(l, p);
      EvictionSparesNewest(l, k);
    }
  }

  lemma EvictionSparesNewest(l: Limits, k: Journal)
    requires Valid(l, k) && l.maxEntries != Some(0) && k.lowWater < k.lastSeq
    ensures Evicted(l, k, EvictCount(l, k.entries, k.bytes)).lowWater < k.lastSeq
  {
    hide EvictCount, SizeOf;
    var n := EvictCount(l, k.entries, k.bytes);
    EvictCountIsLeast(l, k.entries, k.bytes);
    if n > 0 {
      assert Over(l, |k.entries| - (n - 1), SizeOf(l, k.entries[n - 1..]));
      assert n < |k.entries| && k.entries[n] in k.entries;
    }
  }

  lemma OnDiskValid(cfg: Config, j: Journal)
    requires OnDisk(cfg, j)
    ensures Valid(cfg.limits, j)
  {
  }

  /** A driver that did not already show a running turn journals one, as the newest entry there is. */
  lemma SentIsNewest(cfg: Config, rt: Runtime, uuid: string, rest: int, ts: int)
    requires OnDisk(cfg, rt.journal) && cfg.limits.maxEntries != Some(0)
    requires rt.driver.Some? && rt.driver.value.gen == rt.gen && rt.driver.value.lastKey != Some((true, rest))
    ensures
      var j := Sent(cfg.limits, rt, uuid, rest, ts).journal;
      && j.checkpoint.state == Some(Entry(rt.journal.lastSeq + 1, ts, SessionState(true)))
      && j.lowWater <= rt.journal.lastSeq
  {
    hide Appended, OnDisk, Valid;
    OnDiskValid(cfg, rt.journal);
    AppendFolds(cfg.limits, rt.journal, SessionState(true), ts);
    NewestIsRetained(cfg.limits, rt.journal, SessionState(true), ts);
  }

  /** Whether the thread's driver, if it has one, shows a running turn although none is. */
  predicate ShowsStaleTurn(rt: Runtime, rest: int) {
    rt.driver.Some? && rt.driver.value.lastKey == Some((true, rest))
  }

  lemma AcceptedIsNewest(cfg: Config, caps: Caps, threads: Threads, step: Step, ts: int)
    requires DaemonConfig(cfg) && HostInv(caps, threads) && AllOnDisk(cfg, threads) && cfg.limits.maxEntries != Some(0)
    requires step.Send? && SendTo(cfg.limits, caps, threads, step, ts).1 == Accepted
    requires !ShowsStaleTurn(Get(threads, step.thread).value, step.rest)
    ensures
      var after := Get(SendTo(cfg.limits, caps, threads, step, ts).0, step.thread);
      && after.Some? && after.value.journal.checkpoint.state.Some?
      && after.value.journal.checkpoint.state.value.seqNo > after.value.journal.lowWater
  {
    hide ThreadHosts.Inv, OnDisk, DaemonConfig, Started, Sent, Put, TurnsInFlight, LiveSessions;
    var l, rt := cfg.limits, Get(threads, step.thread).value;
    if rt.driver.Some? {
      DriverGen(rt);
      SentIsNewest(cfg, rt, step.uuid, step.rest, ts);
      GetPut(threads, step.thread, Sent(l, rt, step.uuid, step.rest, ts), step.thread);
    } else {
      var r := Started(l, rt, step.start, step.rest, ts);
      StartedOnDisk(cfg, rt, step.start, step.rest, ts);
      StartedKeepsInv(l, rt, step.start, step.rest, ts);
      StartedShowsIdle(l, rt, step.start, step.rest, ts);
      SentIsNewest(cfg, r, step.uuid, step.rest, ts);
      GetPut(threads, step.thread, Sent(l, r, step.uuid, step.rest, ts), step.thread);
    }
  }

  lemma StartedShowsIdle(l: Limits, rt: Runtime, start: Start, rest: int, ts: int)
    ensures
      var r := Started(l, rt, start, rest, ts);
      start == Works ==>
        r.driver.Some? && r.driver.value.gen == r.gen && r.driver.value.lastKey == Some((false, rest))
  {
    hide Appended;
  }

  /**
   * A send once acked, in any host, and a crash at any byte thereafter, before anything else happens to the thread: the
   * next process knows the turn if and only if its state record was not evicted, and then ends it as
   * `daemon_restarted`. In a journal with room for any entry the record is never evicted by the send itself, so the
   * promise holds, unless the driver still showed the turn before.
   */
  lemma AcceptedSurvivesCrash(
      cfg: Config, caps: Caps, threads: Threads, step: Step, ts: int, rt: Runtime, s: Store, k: nat, epoch: string,
      native: string)
    requires DaemonConfig(cfg) && HostInv(caps, threads) && AllOnDisk(cfg, threads)
    requires step.Send? && SendTo(cfg.limits, caps, threads, step, ts).1 == Accepted
    requires Get(SendTo(cfg.limits, caps, threads, step, ts).0, step.thread) == Some(rt)
    requires Life(cfg, s) && s.mem == rt.journal
    requires k <= |Serialize(cfg.codec, s.buffer)| && !KnowsEpoch(s.disk.idx, epoch)
    ensures
      var shown := rt.journal.checkpoint.state;
      var back := RecoveredMem(cfg, D.Torn(cfg, s, k)).checkpoint;
      && shown.Some? && shown.value.event == SessionState(true)
      && (back.state == shown <==> shown.value.seqNo > rt.journal.lowWater)
      && (back.state == shown ==> RecoveryEvents(back, native) == Closings(back.openRequests, "expired") + TurnClosers(native))
      && (cfg.limits.maxEntries != Some(0) && !ShowsStaleTurn(Get(threads, step.thread).value, step.rest)
          ==> back.state == shown)
  {
    hide ThreadHosts.Inv, DaemonConfig, Life, AllOnDisk, SendTo, RecoveredMem, Closings;
    AcceptedIsKnown(cfg.limits, caps, threads, step, ts);
    AcceptedIsJournaled(cfg.limits, caps, threads, step, ts);
    StateSurvivesCrash(cfg, s, k, epoch);
    if cfg.limits.maxEntries != Some(0) && !ShowsStaleTurn(Get(threads, step.thread).value, step.rest) {
      AcceptedIsNewest(cfg, caps, threads, step, ts);
    }
  }

  lemma AcceptedIsKnown(l: Limits, caps: Caps, threads: Threads, step: Step, ts: int)
    requires step.Send? && SendTo(l, caps, threads, step, ts).1 == Accepted
    ensures Has(threads, step.thread)
  {
  }

  // ---- sends after a restart ----------------------------------------------------------------------------------

  /** Neither a restart nor a send of this message to this thread. */
  predicate Elsewhere(step: Step, thread: string, uuid: string) {
    !step.Restart? && !(step.Send? && step.thread == thread && step.uuid == uuid)
  }

  ghost predicate NotDelivered(threads: Threads, thread: string, uuid: string) {
    Has(threads, thread) ==> uuid !in Get(threads, thread).value.delivered
  }

  lemma PutNotDelivered(threads: Threads, t: string, rt: Runtime, thread: string, uuid: string)
    requires NotDelivered(threads, thread, uuid) && (t == thread ==> uuid !in rt.delivered)
    ensures NotDelivered(Put(threads, t, rt), thread, uuid)
  {
    GetPut(threads, t, rt, thread);
  }

  lemma OpenDeliversNothing(
      l: Limits, caps: Caps, threads: Threads, step: Step, ts: int, thread: string, uuid: string)
    requires HostInv(caps, threads) && step.Open? && NotDelivered(threads, thread, uuid)
    ensures NotDelivered(Opened(l, caps, threads, step, ts), thread, uuid)
  {
    hide ThreadHosts.Inv, Started, Put, TurnsInFlight, LiveSessions, NotDelivered;
    var rt := match Get(threads, step.thread) case Some(r) => r case None => NewRuntime(FRESH);
    assert step.thread == thread ==> uuid !in rt.delivered by { NotDeliveredTo(threads, thread, uuid); }
    PutNotDelivered(threads, step.thread, rt, thread, uuid);
    if rt.driver.None? && !AtCap(LiveSessions(threads), caps.maxLive) {
      NewKeepsInv();
      StartedKeepsInv(l, rt, step.start, step.rest, ts);
      var r := Started(l, rt, step.start, step.rest, ts);
      PutNotDelivered(threads, step.thread, r.(recipe := r.driver.Some? || rt.recipe), thread, uuid);
    }
  }

  lemma NotDeliveredTo(threads: Threads, thread: string, uuid: string)
    requires NotDelivered(threads, thread, uuid)
    ensures Has(threads, thread) ==> uuid !in Get(threads, thread).value.delivered
  {
  }

  lemma OtherSendDeliversElsewhere(
      l: Limits, caps: Caps, threads: Threads, step: Step, ts: int, thread: string, uuid: string)
    requires HostInv(caps, threads) && step.Send? && Elsewhere(step, thread, uuid)
    requires NotDelivered(threads, thread, uuid)
    ensures NotDelivered(SendTo(l, caps, threads, step, ts).0, thread, uuid)
  {
    hide ThreadHosts.Inv, Started, Sent, Put, TurnsInFlight, LiveSessions, NotDelivered;
    NotDeliveredTo(threads, thread, uuid);
    if Has(threads, step.thread) && step.uuid !in Get(threads, step.thread).value.seenSends {
      var rt := Get(threads, step.thread).value;
      if rt.driver.Some? {
        SentKeepsInv(l, rt, step.uuid, step.rest, ts);
        PutNotDelivered(threads, step.thread, Sent(l, rt, step.uuid, step.rest, ts), thread, uuid);
      } else {
        var r := Started(l, rt, step.start, step.rest, ts);
        StartedKeepsInv(l, rt, step.start, step.rest, ts);
        PutNotDelivered(threads, step.thread, r, thread, uuid);
        if r.driver.Some? {
          SentKeepsInv(l, r, step.uuid, step.rest, ts);
          PutNotDelivered(threads, step.thread, Sent(l, r, step.uuid, step.rest, ts), thread, uuid);
        }
      }
    }
  }

  lemma StepDeliversElsewhere(
      l: Limits, caps: Caps, threads: Threads, step: Step, ts: int, thread: string, uuid: string)
    requires HostInv(caps, threads) && Enabled(threads, step) && Elsewhere(step, thread, uuid)
    requires NotDelivered(threads, thread, uuid)
    ensures NotDelivered(Next(l, caps, threads, step, ts), thread, uuid)
  {
    hide ThreadHosts.Inv, Acted, Opened, SendTo, Put, NotDelivered, Readable, Possible;
    match step {
      case Open(_, _, _) => OpenDeliversNothing(l, caps, threads, step, ts, thread, uuid);
      case Send(_, _, _, _) => OtherSendDeliversElsewhere(l, caps, threads, step, ts, thread, uuid);
      case Act(t, action) =>
        if Has(threads, t) {
          var rt := Get(threads, t).value;
          ActedKeeps(l, rt, action, ts);
          NotDeliveredTo(threads, thread, uuid);
          PutNotDelivered(threads, t, Acted(l, rt, action, ts), thread, uuid);
        }
    }
  }

  lemma {:induction false} RunDeliversElsewhere(
      l: Limits, caps: Caps, threads: Threads, steps: seq<(Step, int)>, end: Threads, thread: string, uuid: string)
    requires HostInv(caps, threads) && IsRun(l, caps, threads, steps, end)
    requires NotDelivered(threads, thread, uuid) && forall s | s in steps :: Elsewhere(s.0, thread, uuid)
    ensures HostInv(caps, end) && NotDelivered(end, thread, uuid)
    decreases |steps|
  {
    hide HostInv, Next, Enabled, Elsewhere, NotDelivered;
    if steps != [] {
      assert steps[0] in steps && forall s | s in steps[1..] :: s in steps;
      StepKeepsInv(l, caps, threads, steps[0].0, steps[0].1);
      StepDeliversElsewhere(l, caps, threads, steps[0].0, steps[0].1, thread, uuid);
      RunDeliversElsewhere(l, caps, Next(l, caps, threads, steps[0].0, steps[0].1), steps[1..], end, thread, uuid);
    }
  }

  /** What a message needs besides being new: no turn running here, and room under the caps for what it starts. */
  predicate CanRun(caps: Caps, threads: Threads, rt: Runtime, start: Start) {
    && !Running(rt) && !AtCap(TurnsInFlight(threads), caps.maxTurns)
    && (rt.driver.Some? || (rt.recipe && start == Works && !AtCap(LiveSessions(threads), caps.maxLive)))
  }

  /** A message a thread has not delivered in this process is accepted exactly when it can run. */
  lemma NewMessageAccepted(l: Limits, caps: Caps, threads: Threads, step: Step, ts: int)
    requires HostInv(caps, threads) && step.Send? && Has(threads, step.thread)
    requires step.uuid !in Get(threads, step.thread).value.delivered
    ensures SendTo(l, caps, threads, step, ts).1 == Accepted
            <==> CanRun(caps, threads, Get(threads, step.thread).value, step.start)
  {
    hide Books, Named, Unique, Started, Sent, Put, TurnsInFlight, LiveSessions;
    var rt := Get(threads, step.thread).value;
    assert ThreadHosts.Inv(rt);
    if rt.driver.None? {
      StartedKeepsInv(l, rt, step.start, step.rest, ts);
    }
  }

  /**
   * What a thread accepted before a restart is not remembered: at any later moment of the new process, whatever was
   * opened, sent or done meanwhile, a message not sent to the thread in this process is accepted if and only if it can
   * run, though it may have run before.
   */
  lemma OldMessageRunsAgain(
      l: Limits, caps: Caps, images: Pairs<string, Image>, steps: seq<(Step, int)>, end: Threads, step: Step, ts: int)
    requires forall pair | pair in images :: Readable(pair.1)
    requires IsRun(l, caps, Restarted(images), steps, end) && step.Send?
    requires forall s | s in steps :: Elsewhere(s.0, step.thread, step.uuid)
    ensures SendTo(l, caps, end, step, ts).1 == Accepted
            <==> Has(end, step.thread) && CanRun(caps, end, Get(end, step.thread).value, step.start)
  {
    hide ThreadHosts.Inv, IsRun, Restarted, Elsewhere, CanRun, SendTo, Readable, TurnsInFlight, LiveSessions;
    RestartedKeepsInv(images);
    RestartedIsNew(images, step.thread);
    RunDeliversElsewhere(l, caps, Restarted(images), steps, end, step.thread, step.uuid);
    if Has(end, step.thread) {
      NewMessageAccepted(l, caps, end, step, ts);
    } else {
      UnknownIsNotFound(l, caps, end, step, ts);
    }
  }

  lemma UnknownIsNotFound(l: Limits, caps: Caps, threads: Threads, step: Step, ts: int)
    requires step.Send? && !Has(threads, step.thread)
    ensures SendTo(l, caps, threads, step, ts) == (threads, NotFound)
  {
  }

  /**
   * In particular as the very first step of the new process: if and only if a recipe is stored, a driver starts and the
   * caps allow one at all.
   */
  lemma FirstSendAfterRestart(l: Limits, caps: Caps, images: Pairs<string, Image>, step: Step, ts: int)
    requires step.Send? && forall pair | pair in images :: Readable(pair.1)
    ensures
      SendTo(l, caps, Restarted(images), step, ts).1 == Accepted
      <==> && Has(Restarted(images), step.thread) && Get(Restarted(images), step.thread).value.recipe
           && step.start == Works && caps.maxTurns != Some(0) && caps.maxLive != Some(0)
  {
    hide ThreadHosts.Inv, Started, Sent, Put, TurnsInFlight, LiveSessions, Readable, Restarted;
    RestartedKeepsInv(images);
    RestartedIsNew(images, step.thread);
    if Has(Restarted(images), step.thread) {
      StartedKeepsInv(l, Get(Restarted(images), step.thread).value, step.start, step.rest, ts);
    }
  }

  lemma {:induction false} RestartedIsNew(images: Pairs<string, Image>, thread: string)
    ensures
      Has(Restarted(images), thread) ==>
        var rt := Get(Restarted(images), thread).value;
        rt.driver == None && rt.seenSends == [] && rt.delivered == []
  {
    hide Reborn;
    if images != [] {
      RestartedIsNew(images[1..], thread);
      assert Restarted(images)[1..] == Restarted(images[1..]);
    }
  }

  const NO_CAPS := Caps(None, None)

  const SEND := Send("t", "m", Works, 0)

  /** A client that never saw the ack and sends again after a restart has its message run twice. */
  lemma MessageRunsTwice(l: Limits, image: Image, ts: int)
    requires Readable(image) && image.recipe
    ensures
      var idle := Next(l, NO_CAPS, [], Open("t", Works, 0), ts);
      var (sent, first) := SendTo(l, NO_CAPS, idle, SEND, ts);
      var after := Next(l, NO_CAPS, sent, Restart([("t", image)]), ts);
      && first == Accepted && SendTo(l, NO_CAPS, sent, SEND, ts).1 == AlreadySeen
      && SendTo(l, NO_CAPS, after, SEND, ts).1 == Accepted
  {
    hide ThreadHosts.Inv, Started, StateEmitted, Reborn, Readable;
    NewKeepsInv();
    var rt := NewRuntime(FRESH);
    StartedKeepsInv(l, rt, Works, 0, ts);
    var r := Started(l, rt, Works, 0, ts);
    var idle := Next(l, NO_CAPS, [], Open("t", Works, 0), ts);
    assert idle == [("t", r.(recipe := true))];
    var sent := SendTo(l, NO_CAPS, idle, SEND, ts).0;
    assert sent == [("t", Sent(l, r.(recipe := true), "m", 0, ts))];
    assert LastSends([] + ["m"]) == ["m"];
    FirstSendAfterRestart(l, NO_CAPS, [("t", image)], SEND, ts);
    assert Restarted([("t", image)])[0] == ("t", NewRuntime(Reborn(image).mem).(recipe := image.recipe));
  }
}
