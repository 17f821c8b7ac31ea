/**
 * Closing out what a previous daemon process left open (`recover`, daemon/threadHost.ts:148-177): pending requests
 * expire, and a turn that was running ends with an error, an interruption and an idle state.
 */
module ThreadRecovery {
  import opened Common
  import opened Wire
  import opened LogParser
  import opened MemoryJournal
  import opened DiskJournals
  import opened DiskDurability
  import opened DiskRequests

  /** A turn the journal shows as running: its last state says so, or text is still streaming. */
  predicate TurnOpen(cp: Checkpoint) {
    (cp.state.Some? && cp.state.value.event == SessionState(true)) || cp.inFlightText != ""
  }

  predicate Settled(cp: Checkpoint) {
    !TurnOpen(cp) && cp.openRequests == []
  }

  /** One closing event per open request. */
  function Closings(open: seq<Entry>, outcome: string): seq<WireEvent> {
    if open == [] then []
    else (match OpenId(open[0]) case Some(id) => [RequestResolved(id, outcome)] case None => [])
         + Closings(open[1..], outcome)
  }

  function TurnClosers(native: string): seq<WireEvent> {
    [Failed("daemon_restarted"), Interrupted(native), SessionState(false)]
  }

  function RecoveryEvents(cp: Checkpoint, native: string): seq<WireEvent> {
    Closings(cp.openRequests, "expired") + (if TurnOpen(cp) then TurnClosers(native) else [])
  }

  function AppendEach(l: Limits, j: Journal, events: seq<WireEvent>, ts: int): Journal
    decreases |events|
  {
    if events == [] then j else AppendEach(l, Appended(l, j, events[0], ts), events[1..], ts)
  }

  /** The same appends on the store. */
  function StoreEach(cfg: Config, s: Store, events: seq<WireEvent>, ts: int): Store
    decreases |events|
  {
    if events == [] then s else StoreEach(cfg, AppendedTo(cfg, s, events[0], ts), events[1..], ts)
  }

  function ClosedOut(cfg: Config, s: Store, native: string, ts: int): Store {
    if Settled(s.mem.checkpoint) then s
    else Flushed(cfg, StoreEach(cfg, s, RecoveryEvents(s.mem.checkpoint, native), ts), true)
  }

  // ---- what the closing events do to the checkpoint -----------------------------------------------------------

  ghost predicate Named(open: seq<Entry>) {
    forall e | e in open :: OpenId(e).Some?
  }

  lemma AppendFolds(l: Limits, j: Journal, event: WireEvent, ts: int)
    ensures Appended(l, j, event, ts).checkpoint
         == Fold(l.checkpointMessages, j.checkpoint, NextEntry(j, event, ts))
  {
  }

  lemma {:induction false} CloseKeepsOthers(open: seq<Entry>, id: string)
    ensures forall e | e in CloseRequest(open, id) :: e in open && OpenId(e) != Some(id)
  {
    if open != [] {
      CloseKeepsOthers(open[1..], id);
    }
  }

  lemma {:induction false} SetKeepsNamed(open: seq<Entry>, e: Entry)
    requires Named(open) && OpenId(e).Some?
    ensures Named(SetOpen(open, e))
  {
    if open != [] {
      assert forall x | x in open[1..] :: x in open;
      SetKeepsNamed(open[1..], e);
    }
  }

  lemma FoldKeepsNamed(keep: nat, cp: Checkpoint, e: Entry)
    requires Named(cp.openRequests)
    ensures Named(Fold(keep, cp, e).openRequests)
  {
    match Classify(e.event)
    case RequestOpen(_) => SetKeepsNamed(cp.openRequests, e);
    case RequestClose(id) => CloseKeepsOthers(cp.openRequests, id);
    case _ =>
  }

  lemma {:induction false} FoldAllKeepsNamed(keep: nat, cp: Checkpoint, es: seq<Entry>)
    requires Named(cp.openRequests)
    ensures Named(FoldAll(keep, cp, es).openRequests)
    decreases |es|
  {
    if es != [] {
      FoldKeepsNamed(keep, cp, es[0]);
      FoldAllKeepsNamed(keep, Fold(keep, cp, es[0]), es[1..]);
    }
  }

  /** `todo` names every open request. */
  ghost predicate Covered(open: seq<Entry>, todo: seq<Entry>) {
    Named(open) && forall e | e in open :: exists t | t in todo :: OpenId(t) == OpenId(e)
  }

  lemma CloseFirst(open: seq<Entry>, todo: seq<Entry>, id: string)
    requires Covered(open, todo) && todo != [] && OpenId(todo[0]) == Some(id)
    ensures Covered(CloseRequest(open, id), todo[1..])
  {
    CloseKeepsOthers(open, id);
    forall e | e in CloseRequest(open, id) ensures exists t | t in todo[1..] :: OpenId(t) == OpenId(e) {
      var t :| t in todo && OpenId(t) == OpenId(e);
      assert t in todo[1..];
    }
  }

  lemma {:induction false} ClosingsClose(l: Limits, j: Journal, todo: seq<Entry>, outcome: string, ts: int)
    requires Covered(j.checkpoint.openRequests, todo)
    requires forall e | e in todo :: OpenId(e).Some? && OpenId(e).value != ""
    ensures AppendEach(l, j, Closings(todo, outcome), ts).checkpoint == j.checkpoint.(openRequests := [])
    decreases |todo|
  {
    hide Appended, Covered, Fold;
    var open := j.checkpoint.openRequests;
    if todo == [] {
      CoveredByNothing(open);
    } else {
      var id := OpenId(todo[0]).value;
      assert todo[0] in todo && forall e | e in todo[1..] :: e in todo;
      var k := Appended(l, j, RequestResolved(id, outcome), ts);
      AppendFolds(l, j, RequestResolved(id, outcome), ts);
      FoldCloses(l.checkpointMessages, j.checkpoint, NextEntry(j, RequestResolved(id, outcome), ts), id);
      CloseFirst(open, todo, id);
      ClosingsClose(l, k, todo[1..], outcome, ts);
      assert Closings(todo, outcome)[1..] == Closings(todo[1..], outcome);
    }
  }

  lemma HasSome(open: seq<Entry>)
    requires open != []
    ensures exists e :: e in open
  {
    assert open[0] in open;
  }

  lemma CoveredByNothing(open: seq<Entry>)
    requires Covered(open, [])
    ensures open == []
  {
    if open != [] {
      HasSome(open);
    }
  }

  lemma FoldCloses(keep: nat, cp: Checkpoint, e: Entry, id: string)
    requires e.event.RequestResolved? && e.event.requestId == id && id != ""
    ensures Fold(keep, cp, e) == cp.(openRequests := CloseRequest(cp.openRequests, id))
  {
  }

  lemma OpenIdsAreNames(e: Entry)
    ensures OpenId(e).Some? ==> OpenId(e).value != ""
  {
  }

  lemma {:induction false} AppendEachConcat(l: Limits, j: Journal, a: seq<WireEvent>, b: seq<WireEvent>, ts: int)
    ensures AppendEach(l, j, a + b, ts) == AppendEach(l, AppendEach(l, j, a, ts), b, ts)
    decreases |a|
  {
    hide Appended;
    if a == [] {
      assert a + b == b;
    } else {
      assert (a + b)[1..] == a[1..] + b;
      AppendEachConcat(l, Appended(l, j, a[0], ts), a[1..], b, ts);
    }
  }

  /** Closing every open request changes nothing else in the checkpoint. */
  lemma CloseAllOpen(l: Limits, j: Journal, outcome: string, ts: int)
    requires Named(j.checkpoint.openRequests)
    ensures AppendEach(l, j, Closings(j.checkpoint.openRequests, outcome), ts).checkpoint
         == j.checkpoint.(openRequests := [])
  {
    hide OpenId;
    forall e | e in j.checkpoint.openRequests ensures OpenId(e).Some? && OpenId(e).value != "" {
      OpenIdsAreNames(e);
    }
    ClosingsClose(l, j, j.checkpoint.openRequests, outcome, ts);
  }

  /** The error, the interruption and the idle state end any turn. */
  lemma TurnClosersEnd(l: Limits, j: Journal, native: string, ts: int)
    ensures
      var cp := AppendEach(l, j, TurnClosers(native), ts).checkpoint;
      && !TurnOpen(cp) && cp.openRequests == j.checkpoint.openRequests
      && cp.state.Some? && cp.state.value.event == SessionState(false)
  {
    hide Appended;
    var events := TurnClosers(native);
    var a := Appended(l, j, events[0], ts);
    var b := Appended(l, a, events[1], ts);
    assert events[1..][1..] == [events[2]] && [events[2]][1..] == [] && events[1..][0] == events[1];
    AppendFolds(l, j, events[0], ts);
    AppendFolds(l, a, events[1], ts);
    AppendFolds(l, b, events[2], ts);
    assert AppendEach(l, b, [events[2]], ts) == Appended(l, b, events[2], ts);
    assert AppendEach(l, a, events[1..], ts) == AppendEach(l, b, [events[2]], ts);
  }

  /** After recovery no request is open and no turn is running, whatever was restored. */
  lemma RecoverySettles(l: Limits, j: Journal, native: string, ts: int)
    requires Named(j.checkpoint.openRequests)
    ensures Settled(AppendEach(l, j, RecoveryEvents(j.checkpoint, native), ts).checkpoint)
  {
    hide Appended, TurnClosers;
    var closings := Closings(j.checkpoint.openRequests, "expired");
    CloseAllOpen(l, j, "expired", ts);
    var k := AppendEach(l, j, closings, ts);
    if TurnOpen(j.checkpoint) {
      AppendEachConcat(l, j, closings, TurnClosers(native), ts);
      TurnClosersEnd(l, k, native, ts);
    } else {
      assert closings + [] == closings;
    }
  }

  lemma {:induction false} ClosingsAre(open: seq<Entry>, outcome: string)
    requires Named(open)
    ensures |Closings(open, outcome)| == |open|
    ensures forall i | 0 <= i < |open| ::
      OpenId(open[i]).Some? && Closings(open, outcome)[i] == RequestResolved(OpenId(open[i]).value, outcome)
  {
    if open != [] {
      assert open[0] in open && forall e | e in open[1..] :: e in open;
      ClosingsAre(open[1..], outcome);
      var first := RequestResolved(OpenId(open[0]).value, outcome);
      assert Closings(open, outcome) == [first] + Closings(open[1..], outcome);
    }
  }

  /** Whether the journal shows a turn: its last state says one is in flight, or text is streaming. */
  predicate ShowsTurn(cp: Checkpoint) {
    cp.inFlightText != "" || (cp.state.Some? && cp.state.value.event.SessionState? && cp.state.value.event.turnInFlight)
  }

  /**
   * What a recovery tells a journal: that each request open in it has expired, in order; and, exactly when it shows a turn,
   * that the daemon restarted, that the turn was interrupted, and that the session is idle. A journal that shows neither is
   * left as it is.
   */
  lemma RecoveryTells(cfg: Config, s: Store, native: string, ts: int)
    requires Named(s.mem.checkpoint.openRequests)
    ensures
      var cp := s.mem.checkpoint;
      var open, events := cp.openRequests, RecoveryEvents(cp, native);
      && |events| == |open| + (if ShowsTurn(cp) then 3 else 0)
      && (forall i | 0 <= i < |open| ::
            OpenId(open[i]).Some? && events[i] == RequestResolved(OpenId(open[i]).value, "expired"))
      && (ShowsTurn(cp) ==>
            events[|open|..] == [Failed("daemon_restarted"), Interrupted(native), SessionState(false)])
      && ClosedOut(cfg, s, native, ts)
         == if events == [] then s else Flushed(cfg, StoreEach(cfg, s, events, ts), true)
  {
    hide Flushed, StoreEach;
    ClosingsAre(s.mem.checkpoint.openRequests, "expired");
    assert forall a: seq<WireEvent> :: a + [] == a;
  }

  // ---- a second crash -----------------------------------------------------------------------------------------

  /** Folded from less, a checkpoint shows no more of a turn than folded from all. */
  ghost predicate ShowsNoMore(all: Checkpoint, late: Checkpoint) {
    && (all.inFlightText == "" ==> late.inFlightText == "")
    && (late.state == all.state || late.state == None)
  }

  lemma {:induction false} FoldAllShowsNoMore(keep: nat, all: Checkpoint, late: Checkpoint, es: seq<Entry>)
    requires ShowsNoMore(all, late)
    ensures ShowsNoMore(FoldAll(keep, all, es), FoldAll(keep, late, es))
    decreases |es|
  {
    if es != [] {
      FoldAllShowsNoMore(keep, Fold(keep, all, es[0]), Fold(keep, late, es[0]), es[1..]);
    }
  }

  /** A settled journal is still settled when it is folded again from what it retains. */
  lemma SettledSurvives(l: Limits, j: Journal, es: seq<Entry>, floor: nat)
    requires FoldedFrom(l, j, es, floor) && Settled(j.checkpoint)
    ensures Settled(FoldAll(l.checkpointMessages, EMPTY_CHECKPOINT, j.entries))
  {
    hide FoldAll, Above;
    var keep := l.checkpointMessages;
    var back := FoldAll(keep, EMPTY_CHECKPOINT, j.entries);
    RequestsAcrossRestart(l, j, es, floor);
    if back.openRequests != [] {
      HasSome(back.openRequests);
    }
    ViewFolds(l, es, j, floor);
    var early := SplitAtMark(es, j.lowWater);
    FoldAllAppend(keep, EMPTY_CHECKPOINT, early, Above(es, j.lowWater));
    FoldAllShowsNoMore(keep, FoldAll(keep, EMPTY_CHECKPOINT, early), EMPTY_CHECKPOINT, Above(es, j.lowWater));
  }

  /** What a process appends keeps its account of everything it restored or appended. */
  lemma {:induction false} EachKeepsFolded(l: Limits, j: Journal, es: seq<Entry>, floor: nat,
                                           events: seq<WireEvent>, ts: int)
    returns (more: seq<Entry>, higher: nat)
    requires FoldedFrom(l, j, es, floor)
    ensures FoldedFrom(l, AppendEach(l, j, events, ts), more, higher)
    decreases |events|
  {
    hide FoldedFrom, Appended;
    if events == [] {
      more, higher := es, floor;
    } else {
      LiveAppend(l, j, es, floor, events[0], ts);
      more, higher := EachKeepsFolded(l, Appended(l, j, events[0], ts), es + [NextEntry(j, events[0], ts)],
                                      Max(floor, AppendFloor(l, j, events[0], ts)), events[1..], ts);
    }
  }

  /** On the store, memory goes the same way and the disk keeps matching it. */
  lemma {:induction false} StoreEachKeeps(cfg: Config, s: Store, events: seq<WireEvent>, ts: int)
    requires Inv(cfg, s)
    ensures Inv(cfg, StoreEach(cfg, s, events, ts))
    ensures StoreEach(cfg, s, events, ts).mem == AppendEach(cfg.limits, s.mem, events, ts)
    ensures StoreEach(cfg, s, events, ts).epoch == s.epoch
    decreases |events|
  {
    hide Inv, Appended;
    if events != [] {
      AppendKeepsInv(cfg, s, events[0], ts);
      OpenStore(cfg, s);
      StoreEachKeeps(cfg, AppendedTo(cfg, s, events[0], ts), events[1..], ts);
    }
  }

  lemma OpenStore(cfg: Config, s: Store)
    requires Inv(cfg, s)
    ensures !s.closed && s.disk.idx.Some?
  {
  }

  /** After a synced flush a new process folds its checkpoint from what was retained. */
  lemma FlushedFolds(cfg: Config, s: Store, es: seq<Entry>, floor: nat)
    requires Inv(cfg, s) && FoldedFrom(cfg.limits, s.mem, es, floor) && Settled(s.mem.checkpoint)
    ensures Settled(RecoveredMem(cfg, Flushed(cfg, s, true).disk).checkpoint)
    ensures Inv(cfg, Flushed(cfg, s, true)) && Flushed(cfg, s, true).mem == s.mem
  {
    hide Flushed, RecoveredMem, FoldedFrom, TurnOpen;
    FlushKeepsInv(cfg, s, true);
    FlushedMatches(cfg, s, true);
    OpenStore(cfg, s);
    FlushedFrame(cfg, s);
    FlushMem(cfg, s);
    RestSurvives(cfg, Flushed(cfg, s, true));
    SettledSurvives(cfg.limits, s.mem, es, floor);
  }

  lemma FlushMem(cfg: Config, s: Store)
    ensures Flushed(cfg, s, true).mem == s.mem
  {
  }

  /** A store just recovered from any disk: what it knows is what it restored. */
  lemma RecoveredFolds(cfg: Config, disk: Disk, epoch: string) returns (es: seq<Entry>)
    requires cfg.codec.Valid() && !KnowsEpoch(disk.idx, epoch)
    ensures ReadLog(cfg.codec, disk.log).validBytes <= |disk.log|
    ensures FoldedFrom(cfg.limits, Recovered(cfg, disk, epoch).mem, es, 0)
    ensures Named(Recovered(cfg, disk, epoch).mem.checkpoint.openRequests)
  {
    hide FoldedFrom, Recovered;
    OpenEstablishesInv(cfg, disk, epoch);
    var all := ReadLog(cfg.codec, disk.log).entries;
    ReadIncreasing(cfg.codec, disk.log);
    var last := Max(if disk.idx.Some? then disk.idx.value.lastSeq else 0, LastSeq(all));
    var low := LowWaterOf(disk.idx);
    LiveFromRestore(cfg.limits, all, last, low, if disk.idx.Some? then disk.idx.value.ackedSeq else 0);
    es := Above(all, low);
    FoldAllKeepsNamed(cfg.limits.checkpointMessages, EMPTY_CHECKPOINT, es);
  }

  /**
   * Recovery is done once: whatever the disk held, after recovering it no request is open and no turn is running, and
   * a second crash with its recovery finds nothing to close, whether it comes before or after a compaction.
   */
  lemma RecoveringOnceIsEnough(cfg: Config, disk: Disk, epoch: string, native: string, ts: int, now: int)
    requires cfg.codec.Valid() && !KnowsEpoch(disk.idx, epoch)
    ensures ReadLog(cfg.codec, disk.log).validBytes <= |disk.log|
    ensures
      var s := ClosedOut(cfg, Recovered(cfg, disk, epoch), native, ts);
      && Inv(cfg, s) && Settled(s.mem.checkpoint)
      && Settled(RecoveredMem(cfg, s.disk).checkpoint)
      && Settled(RecoveredMem(cfg, CompactedTo(cfg, s, now).disk).checkpoint)
  {
    hide Recovered, RecoveredMem, Flushed, StoreEach, AppendEach, RecoveryEvents, FoldedFrom, Settled, CompactedTo, Inv, Named;
    OpenEstablishesInv(cfg, disk, epoch);
    var s0 := Recovered(cfg, disk, epoch);
    var es := RecoveredFolds(cfg, disk, epoch);
    OpenStore(cfg, s0);
    if Settled(s0.mem.checkpoint) {
      AtRest(cfg, s0, es, 0);
      CompactionKeepsSettled(cfg, s0, es, 0, now);
    } else {
      var events := RecoveryEvents(s0.mem.checkpoint, native);
      var s1 := StoreEach(cfg, s0, events, ts);
      StoreEachKeeps(cfg, s0, events, ts);
      RecoverySettles(cfg.limits, s0.mem, native, ts);
      var more, floor := EachKeepsFolded(cfg.limits, s0.mem, es, 0, events, ts);
      FlushedFolds(cfg, s1, more, floor);
      CompactionKeepsSettled(cfg, Flushed(cfg, s1, true), more, floor, now);
    }
  }

  lemma AtRest(cfg: Config, s: Store, es: seq<Entry>, floor: nat)
    requires Inv(cfg, s) && s.buffer == [] && s.disk.idx.Some? && s.disk.idx.value.lastSeq == s.mem.lastSeq
    requires FoldedFrom(cfg.limits, s.mem, es, floor) && Settled(s.mem.checkpoint)
    ensures Settled(RecoveredMem(cfg, s.disk).checkpoint)
  {
    hide RecoveredMem, FoldedFrom, TurnOpen;
    RestSurvives(cfg, s);
    SettledSurvives(cfg.limits, s.mem, es, floor);
  }

  lemma CompactionKeepsSettled(cfg: Config, s: Store, es: seq<Entry>, floor: nat, now: int)
    requires Inv(cfg, s) && FoldedFrom(cfg.limits, s.mem, es, floor) && Settled(s.mem.checkpoint)
    requires Settled(RecoveredMem(cfg, s.disk).checkpoint)
    ensures Settled(RecoveredMem(cfg, CompactedTo(cfg, s, now).disk).checkpoint)
  {
    hide RecoveredMem, FoldedFrom, Settled, Flushed, Compacted, Inv, Removed, Expired, AckFloor;
    LiveCompact(cfg.limits, s.mem, es, floor, now);
    CompactedFrame(cfg.limits, s.mem, now);
    CompactKeepsInv(cfg, s, now);
    OpenStore(cfg, s);
    var t := CompactedTo(cfg, s, now);
    CompactedAtRest(cfg, s, now);
    if t.disk != s.disk {
      OpenStore(cfg, t);
      AtRest(cfg, t, es, Max(floor, AckFloor(Expired(cfg.limits, s.mem, now).entries, s.mem.ackedSeq, 0)));
    }
  }

  /** Compaction writes nothing, or everything. */
  lemma CompactedAtRest(cfg: Config, s: Store, now: int)
    requires !s.closed
    ensures
      var t := CompactedTo(cfg, s, now);
      && t.mem == Compacted(cfg.limits, s.mem, now)
      && (t.disk == s.disk ||
          (t.buffer == [] && t.disk.idx.Some? && t.disk.idx.value.lastSeq == t.mem.lastSeq))
  {
    hide Compacted, Removed, Expired, AckFloor;
  }

  // ---- the loop ------------------------------------------------------------------------------------------------

  /** Close out one thread's journal; `interrupted` when a turn was running. */
  method CloseOut(journal: DiskJournal, native: string, ts: int) returns (interrupted: bool)
    requires journal.Wired()
    modifies journal, journal.inner
    ensures journal.Wired()
    ensures journal.Value() == ClosedOut(journal.cfg, old(journal.Value()), native, ts)
    ensures interrupted == TurnOpen(old(journal.inner.checkpoint))
  {
    hide AppendedTo, Flushed, StoreEach;
    var cp := journal.inner.checkpoint;
    interrupted := TurnOpen(cp);
    if !interrupted && cp.openRequests == [] {
      return;
    }
    ghost var start, cfg := journal.Value(), journal.cfg;
    ghost var last := if interrupted then TurnClosers(native) else [];
    var i := 0;
    assert cp.openRequests[0..] == cp.openRequests;
    while i < |cp.openRequests|
      invariant 0 <= i <= |cp.openRequests| && journal.Wired()
      invariant StoreEach(cfg, journal.Value(), Closings(cp.openRequests[i..], "expired") + last, ts)
                == StoreEach(cfg, start, RecoveryEvents(cp, native), ts)
    {
      NextClosing(cfg, journal.Value(), cp.openRequests[i..], last, ts);
      assert cp.openRequests[i..][1..] == cp.openRequests[i + 1..];
      var id := OpenId(cp.openRequests[i]);
      if id.Some? {
        var _ := journal.Append(RequestResolved(id.value, "expired"), ts);
      }
      i := i + 1;
    }
    assert Closings(cp.openRequests[i..], "expired") + last == last;
    if interrupted {
      ThreeMore(cfg, journal.Value(), native, ts);
      var _ := journal.Append(Failed("daemon_restarted"), ts);
      var _ := journal.Append(Interrupted(native), ts);
      var _ := journal.Append(SessionState(false), ts);
    } else {
      NoMore(cfg, journal.Value(), ts);
    }
    journal.Flush(true);
  }

  lemma NextClosing(cfg: Config, s: Store, open: seq<Entry>, last: seq<WireEvent>, ts: int)
    requires open != []
    ensures
      var after := match OpenId(open[0])
                   case Some(id) => AppendedTo(cfg, s, RequestResolved(id, "expired"), ts)
                   case None => s;
      StoreEach(cfg, s, Closings(open, "expired") + last, ts)
      == StoreEach(cfg, after, Closings(open[1..], "expired") + last, ts)
  {
    hide AppendedTo;
    var rest := Closings(open[1..], "expired") + last;
    match OpenId(open[0]) {
      case Some(id) =>
        Associate([RequestResolved(id, "expired")], Closings(open[1..], "expired"), last);
        assert ([RequestResolved(id, "expired")] + rest)[1..] == rest;
      case None => assert Closings(open, "expired") == Closings(open[1..], "expired");
    }
  }

  lemma ThreeMore(cfg: Config, s: Store, native: string, ts: int)
    ensures
      var a := AppendedTo(cfg, s, Failed("daemon_restarted"), ts);
      var b := AppendedTo(cfg, a, Interrupted(native), ts);
      StoreEach(cfg, s, TurnClosers(native), ts) == AppendedTo(cfg, b, SessionState(false), ts)
  {
    hide AppendedTo;
    var events := TurnClosers(native);
    var a := AppendedTo(cfg, s, events[0], ts);
    var b := AppendedTo(cfg, a, events[1], ts);
    assert events[1..][1..] == [events[2]] && [events[2]][1..] == [] && events[1..][0] == events[1];
    assert StoreEach(cfg, b, [events[2]], ts) == AppendedTo(cfg, b, events[2], ts);
    assert StoreEach(cfg, a, events[1..], ts) == StoreEach(cfg, b, [events[2]], ts);
  }

  lemma NoMore(cfg: Config, s: Store, ts: int)
    ensures StoreEach(cfg, s, [], ts) == s
  {
  }
}
