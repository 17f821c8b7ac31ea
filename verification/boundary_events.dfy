/**
 * What reaches the disk at once (`isBoundary`, daemon/threadHost.ts:107-111): turn ends, opened and closed requests and
 * session states are flushed as they are appended. So after a crash at any moment the open requests and the state are
 * those the process knew, but for what it had evicted.
 */
module BoundaryEvents {
  import opened Common
  import opened Wire
  import opened LogParser
  import opened MemoryJournal
  import opened DiskJournals
  import opened DiskDurability
  import opened DiskRequests
  import opened ThreadRecovery

  predicate IsBoundary(event: WireEvent) {
    var role := Classify(event);
    role.TurnEnd? || role.RequestOpen? || role.RequestClose? || role.State?
  }

  /** A journal configured as the session host configures it. */
  ghost predicate DaemonConfig(cfg: Config) {
    cfg.codec.Valid() && forall event :: cfg.isBoundary(event) <==> IsBoundary(event)
  }

  // ---- one process's life -------------------------------------------------------------------------------------

  datatype Op = Append(event: WireEvent, ts: int) | Flush(sync: bool) | Ack(seqNo: int) | Compact(now: int)

  function Done(cfg: Config, s: Store, op: Op): Store {
    match op
    case Append(event, ts) => AppendedTo(cfg, s, event, ts)
    case Flush(sync) => Flushed(cfg, s, sync)
    case Ack(n) => AckedBy(s, n)
    case Compact(now) => CompactedTo(cfg, s, now)
  }

  function AllDone(cfg: Config, s: Store, ops: seq<Op>): Store
    decreases |ops|
  {
    if ops == [] then s else AllDone(cfg, Done(cfg, s, ops[0]), ops[1..])
  }

  ghost predicate NoBoundaryWaits(s: Store) {
    forall e | e in s.buffer :: !IsBoundary(e.event)
  }

  /** Disk and memory match, memory is folded from all this process knew, and no boundary event waits in the buffer. */
  ghost predicate Life(cfg: Config, s: Store) {
    Inv(cfg, s) && NoBoundaryWaits(s) && exists es, floor :: FoldedFrom(cfg.limits, s.mem, es, floor)
  }

  lemma LiveAck(l: Limits, j: Journal, es: seq<Entry>, floor: nat, seqNo: int)
    requires FoldedFrom(l, j, es, floor)
    ensures FoldedFrom(l, Acked(j, seqNo), es, floor)
  {
  }

  lemma AppendKeepsLife(cfg: Config, s: Store, event: WireEvent, ts: int)
    requires DaemonConfig(cfg) && Life(cfg, s)
    ensures Life(cfg, AppendedTo(cfg, s, event, ts))
  {
    hide FoldedFrom, Inv, Appended, AppendFloor, IsBoundary, Flushed;
    var l := cfg.limits;
    var es, floor :| FoldedFrom(l, s.mem, es, floor);
    AppendKeepsInv(cfg, s, event, ts);
    OpenStore(cfg, s);
    LiveAppend(l, s.mem, es, floor, event, ts);
    FlushedNothingWaits(cfg, Buffered(cfg, s, event, ts), true);
  }

  lemma FlushedNothingWaits(cfg: Config, s: Store, sync: bool)
    requires !s.closed
    ensures Flushed(cfg, s, sync).buffer == [] && Flushed(cfg, s, sync).mem == s.mem
  {
  }

  lemma DoneKeepsLife(cfg: Config, s: Store, op: Op)
    requires DaemonConfig(cfg) && Life(cfg, s)
    ensures Life(cfg, Done(cfg, s, op))
  {
    hide FoldedFrom, Inv, Appended, IsBoundary, Flushed, Compacted, Removed, Expired, AckFloor, AppendedTo, Acked;
    var l := cfg.limits;
    var es, floor :| FoldedFrom(l, s.mem, es, floor);
    OpenStore(cfg, s);
    match op {
      case Append(event, ts) => AppendKeepsLife(cfg, s, event, ts);
      case Flush(sync) =>
        FlushKeepsInv(cfg, s, sync);
        FlushedNothingWaits(cfg, s, sync);
      case Ack(n) =>
        AckKeepsInv(cfg, s, n);
        LiveAck(l, s.mem, es, floor, n);
      case Compact(now) =>
        CompactKeepsInv(cfg, s, now);
        LiveCompact(l, s.mem, es, floor, now);
        CompactedNothingWaits(cfg, s, now);
    }
  }

  lemma CompactedNothingWaits(cfg: Config, s: Store, now: int)
    requires !s.closed && NoBoundaryWaits(s)
    ensures NoBoundaryWaits(CompactedTo(cfg, s, now))
    ensures CompactedTo(cfg, s, now).mem == Compacted(cfg.limits, s.mem, now)
  {
    hide Compacted, Removed, Expired, AckFloor;
  }

  lemma {:induction false} AllDoneKeepsLife(cfg: Config, s: Store, ops: seq<Op>)
    requires DaemonConfig(cfg) && Life(cfg, s)
    ensures Life(cfg, AllDone(cfg, s, ops))
    decreases |ops|
  {
    hide Life, Done;
    if ops != [] {
      DoneKeepsLife(cfg, s, ops[0]);
      AllDoneKeepsLife(cfg, Done(cfg, s, ops[0]), ops[1..]);
    }
  }

  lemma RecoveredLives(cfg: Config, disk: Disk, epoch: string)
    requires DaemonConfig(cfg) && !KnowsEpoch(disk.idx, epoch)
    ensures ReadLog(cfg.codec, disk.log).validBytes <= |disk.log|
    ensures Life(cfg, Recovered(cfg, disk, epoch))
  {
    hide FoldedFrom, Inv, Recovered;
    OpenEstablishesInv(cfg, disk, epoch);
    var es := RecoveredFolds(cfg, disk, epoch);
  }

  // ---- what a crash shows -------------------------------------------------------------------------------------

  lemma {:induction false} QuietFold(keep: nat, cp: Checkpoint, es: seq<Entry>)
    requires forall e | e in es :: !IsBoundary(e.event)
    ensures FoldAll(keep, cp, es).state == cp.state && FoldAll(keep, cp, es).openRequests == cp.openRequests
    decreases |es|
  {
    if es != [] {
      assert es[0] in es && forall e | e in es[1..] :: e in es;
      QuietFold(keep, Fold(keep, cp, es[0]), es[1..]);
    }
  }

  lemma {:induction false} AboveIn(es: seq<Entry>, after: nat)
    ensures forall e | e in Above(es, after) :: e in es
  {
    if es != [] {
      AboveIn(es[1..], after);
    }
  }

  /** After a crash at any byte, state and open requests are those folded from what memory retained. */
  lemma CrashFolds(cfg: Config, s: Store, k: nat, epoch: string)
    requires Inv(cfg, s) && NoBoundaryWaits(s)
    requires k <= |Serialize(cfg.codec, s.buffer)| && !KnowsEpoch(s.disk.idx, epoch)
    ensures
      var r := RecoveredMem(cfg, Torn(cfg, s, k));
      var back := FoldAll(cfg.limits.checkpointMessages, EMPTY_CHECKPOINT, s.mem.entries);
      r.checkpoint.state == back.state && r.checkpoint.openRequests == back.openRequests && r.lowWater == s.mem.lowWater
  {
    hide FoldAll, Above, View, ReadLog, IsBoundary, Increasing, Harmless;
    var keep, low := cfg.limits.checkpointMessages, s.mem.lowWater;
    CrashRecovers(cfg, s, k, epoch);
    RecoveredFoldsItself(cfg, Torn(cfg, s, k));
    var n := WholeLines(Encoded(cfg.codec, s.buffer), k);
    var kept, rest := Logged(cfg, s) + s.buffer[..n], s.buffer[n..];
    Associate(Logged(cfg, s), s.buffer[..n], rest);
    assert s.buffer[..n] + rest == s.buffer;
    AboveAppend(kept, rest, low);
    FoldAllAppend(keep, EMPTY_CHECKPOINT, Above(kept, low), Above(rest, low));
    AboveIn(rest, low);
    QuietFold(keep, FoldAll(keep, EMPTY_CHECKPOINT, Above(kept, low)), Above(rest, low));
    ViewFolds(cfg.limits, Known(cfg, s), s.mem, s.dropped);
  }

  lemma RecoveredFoldsItself(cfg: Config, disk: Disk)
    ensures
      var r := RecoveredMem(cfg, disk);
      r.checkpoint == FoldAll(cfg.limits.checkpointMessages, EMPTY_CHECKPOINT, r.entries)
  {
    hide FoldAll, Above, ReadLog;
  }

  /** `late` shows the state of `all` when that was entered above the mark, and none otherwise. */
  ghost predicate LateState(all: Checkpoint, late: Checkpoint, lowWater: nat) {
    late.state == match all.state
                  case Some(e) => if e.seqNo > lowWater then Some(e) else None
                  case None => None
  }

  lemma {:induction false} FoldAllLateState(
      keep: nat, all: Checkpoint, late: Checkpoint, es: seq<Entry>, lowWater: nat)
    requires LateState(all, late, lowWater) && forall e | e in es :: e.seqNo > lowWater
    ensures LateState(FoldAll(keep, all, es), FoldAll(keep, late, es), lowWater)
    decreases |es|
  {
    if es != [] {
      assert es[0] in es && forall e | e in es[1..] :: e in es;
      FoldAllLateState(keep, Fold(keep, all, es[0]), Fold(keep, late, es[0]), es[1..], lowWater);
    }
  }

  lemma {:induction false} FoldAllEarlyState(keep: nat, cp: Checkpoint, es: seq<Entry>, lowWater: nat)
    requires cp.state.Some? ==> cp.state.value.seqNo <= lowWater
    requires forall e | e in es :: e.seqNo <= lowWater
    ensures FoldAll(keep, cp, es).state.Some? ==> FoldAll(keep, cp, es).state.value.seqNo <= lowWater
    decreases |es|
  {
    if es != [] {
      assert es[0] in es && forall e | e in es[1..] :: e in es;
      FoldAllEarlyState(keep, Fold(keep, cp, es[0]), es[1..], lowWater);
    }
  }

  lemma StateAcrossRestart(l: Limits, j: Journal, es: seq<Entry>, floor: nat)
    requires FoldedFrom(l, j, es, floor)
    ensures LateState(j.checkpoint, FoldAll(l.checkpointMessages, EMPTY_CHECKPOINT, j.entries), j.lowWater)
  {
    hide FoldAll, Above, View;
    var keep := l.checkpointMessages;
    ViewFolds(l, es, j, floor);
    var early := SplitAtMark(es, j.lowWater);
    AboveKeeps(es, j.lowWater);
    FoldAllAppend(keep, EMPTY_CHECKPOINT, early, Above(es, j.lowWater));
    FoldAllEarlyState(keep, EMPTY_CHECKPOINT, early, j.lowWater);
    FoldAllLateState(keep, FoldAll(keep, EMPTY_CHECKPOINT, early), EMPTY_CHECKPOINT, Above(es, j.lowWater), j.lowWater);
  }

  /**
   * The session state after a crash, for a process opened on any disk, after any operations, at any byte of a write: the
   * one the process knew if and only if its record had not been evicted; otherwise none.
   */
  lemma StateSurvivesCrash(cfg: Config, s: Store, k: nat, epoch: string)
    requires Life(cfg, s) && k <= |Serialize(cfg.codec, s.buffer)| && !KnowsEpoch(s.disk.idx, epoch)
    ensures LateState(s.mem.checkpoint, RecoveredMem(cfg, Torn(cfg, s, k)).checkpoint, s.mem.lowWater)
  {
    hide FoldedFrom, Inv, NoBoundaryWaits, RecoveredMem, FoldAll;
    var es, floor :| FoldedFrom(cfg.limits, s.mem, es, floor);
    CrashFolds(cfg, s, k, epoch);
    StateAcrossRestart(cfg.limits, s.mem, es, floor);
  }

  /**
   * The open requests after such a crash: exactly those the process had open whose record was not evicted. So all of
   * them come back if and only if none lies at or below the low-water mark.
   */
  lemma RequestsSurviveCrash(cfg: Config, s: Store, k: nat, epoch: string)
    requires Life(cfg, s) && k <= |Serialize(cfg.codec, s.buffer)| && !KnowsEpoch(s.disk.idx, epoch)
    ensures
      var open, back := s.mem.checkpoint.openRequests, RecoveredMem(cfg, Torn(cfg, s, k)).checkpoint.openRequests;
      && (forall e :: e in back <==> e in open && e.seqNo > s.mem.lowWater)
      && ((forall e | e in open :: e in back) <==> (forall e | e in open :: e.seqNo > s.mem.lowWater))
  {
    hide FoldedFrom, Inv, NoBoundaryWaits, RecoveredMem, FoldAll;
    var es, floor :| FoldedFrom(cfg.limits, s.mem, es, floor);
    CrashFolds(cfg, s, k, epoch);
    RequestsAcrossRestart(cfg.limits, s.mem, es, floor);
  }

  /** What must be on disk at once: the end of a turn, a request or call opened or closed, a session state. */
  predicate MustNotWait(event: WireEvent) {
    match event
    case Done => true
    case Interrupted(_) => true
    case Failed(_) => true
    case SessionState(_) => true
    case Request(_, id) => id != ""
    case RequestResolved(id, _) => id != ""
    case ToolCall(id) => id != ""
    case ToolCancel(id) => id != ""
    case _ => false
  }

  lemma BoundaryIs(event: WireEvent)
    ensures IsBoundary(event) <==> MustNotWait(event)
  {
  }

  /**
   * When an append reaches the disk: at once, with all that waited, when the event must not wait or the file is behind the
   * journal's mark; otherwise the disk is left alone and the entry waits.
   */
  lemma AppendWritesIff(cfg: Config, s: Store, event: WireEvent, ts: int)
    requires DaemonConfig(cfg) && Inv(cfg, s)
    ensures
      var after := AppendedTo(cfg, s, event, ts);
      var behind := s.needsRewrite || after.mem.lowWater > s.fileLowWater;
      if MustNotWait(event) || behind then
        after.buffer == [] && after.disk.idx.Some? && after.disk.idx.value.lastSeq == s.mem.lastSeq + 1
      else after.disk == s.disk && after.buffer == s.buffer + [Entry(s.mem.lastSeq + 1, ts, event)]
  {
    hide IsBoundary, Appended;
    BoundaryIs(event);
    AppendedValid(cfg.limits, s.mem, event, ts);
  }

  /** Of these no crash loses any: each one the process retained is restored, whenever it dies. */
  lemma NoBoundaryEventIsLost(cfg: Config, s: Store, k: nat, epoch: string, e: Entry)
    requires Life(cfg, s) && k <= |Serialize(cfg.codec, s.buffer)| && !KnowsEpoch(s.disk.idx, epoch)
    requires e in s.mem.entries && MustNotWait(e.event)
    ensures e in RecoveredMem(cfg, Torn(cfg, s, k)).entries
  {
    hide RecoveredMem, ReadLog, Above;
    CrashRecovers(cfg, s, k, epoch);
    var n := WholeLines(Encoded(cfg.codec, s.buffer), k);
    var kept := Logged(cfg, s) + s.buffer[..n];
    RetainedIsKnown(cfg, s, e);
    IncreasingSplit(Logged(cfg, s), s.buffer);
    assert e in kept;
    PrefixIncreasing(cfg, s, n);
    AboveKeeps(kept, s.mem.lowWater);
  }

  lemma RetainedIsKnown(cfg: Config, s: Store, e: Entry)
    requires Inv(cfg, s) && e in s.mem.entries
    ensures e in Logged(cfg, s) || e in s.buffer
    ensures e.seqNo > s.mem.lowWater
  {
    hide ReadLog;
    AboveKeeps(Known(cfg, s), s.mem.lowWater);
    DropTokensKeeps(Above(Known(cfg, s), s.mem.lowWater), s.dropped);
  }

  lemma PrefixIncreasing(cfg: Config, s: Store, n: nat)
    requires Inv(cfg, s) && n <= |s.buffer|
    ensures Increasing(Logged(cfg, s) + s.buffer[..n])
  {
    hide ReadLog;
    var kept := Logged(cfg, s) + s.buffer[..n];
    assert forall i | 0 <= i < |kept| :: kept[i] == Known(cfg, s)[i];
  }

  // ---- what does not come back --------------------------------------------------------------------------------

  const EMPTY_DISK := Disk([], None)

  const ASKED := Request(Permission, "r")

  /** A turn starts and asks for a permission; then a message arrives. */
  const RUNNING_AND_ASKING: seq<Op> := [Append(SessionState(true), 0), Append(ASKED, 0), Append(Message("m"), 0)]

  function RoomForOne(): Limits {
    Limits(Some(1), None, None, 20, (event: WireEvent) => 1)
  }

  lemma AppendMem(cfg: Config, s: Store, event: WireEvent, ts: int)
    requires !s.closed
    ensures AppendedTo(cfg, s, event, ts).mem == Appended(cfg.limits, s.mem, event, ts)
    ensures !AppendedTo(cfg, s, event, ts).closed
  {
    hide Appended, AppendFloor;
  }

  /** In a journal with room for one entry each append evicts the one before. */
  lemma OneIn(j: Journal, event: WireEvent)
    requires |j.entries| <= 1 && j.bytes == |j.entries| && j.ackedSeq == 0
    requires forall e | e in j.entries :: e.seqNo == j.lastSeq
    ensures
      var e := NextEntry(j, event, 0);
      && Appended(RoomForOne(), j, event, 0).entries == [e]
      && Appended(RoomForOne(), j, event, 0).lowWater == (if j.entries == [] then j.lowWater else Max(j.lowWater, j.lastSeq))
      && Appended(RoomForOne(), j, event, 0)
         == j.(entries := [e], bytes := 1, lastSeq := j.lastSeq + 1, checkpoint := Fold(20, j.checkpoint, e),
               lowWater := Appended(RoomForOne(), j, event, 0).lowWater)
  {
    hide Fold, Classify;
    var l, e := RoomForOne(), NextEntry(j, event, 0);
    if j.entries != [] {
      var p := Pushed(l, j, e);
      assert j.entries == [j.entries[0]];
      assert p.entries == [j.entries[0], e] && p.entries[1..] == [e] && p.entries[..1] == j.entries;
      assert j.entries[1..] == [] && [e][1..] == [];
      assert AckFloor(p.entries, 0, 0) == 0;
      assert EvictCount(l, [e], 1) == 0 && EvictCount(l, p.entries, 2) == 1;
      assert SizeOf(l, p.entries[..1]) == 1;
    } else {
      assert Pushed(l, j, e).entries == [e];
    }
  }

  lemma EvictedInTurn()
    ensures
      var l := RoomForOne();
      var j := Appended(l, Appended(l, Appended(l, FRESH, SessionState(true), 0), ASKED, 0), Message("m"), 0);
      && j.lowWater == 2 && j.checkpoint.state == Some(Entry(1, 0, SessionState(true)))
      && j.checkpoint.openRequests == [Entry(2, 0, ASKED)]
  {
    hide Appended;
    var l := RoomForOne();
    OneIn(FRESH, SessionState(true));
    var a := Appended(l, FRESH, SessionState(true), 0);
    OneIn(a, ASKED);
    var b := Appended(l, a, ASKED, 0);
    OneIn(b, Message("m"));
  }

  lemma OpensFresh(cfg: Config)
    requires cfg.codec.Valid()
    ensures ReadLog(cfg.codec, []).validBytes <= 0
    ensures !Recovered(cfg, EMPTY_DISK, "e1").closed && Recovered(cfg, EMPTY_DISK, "e1").mem == FRESH
  {
    hide ReadLog, Inv;
    OpenEstablishesInv(cfg, EMPTY_DISK, "e1");
    OpenStore(cfg, Recovered(cfg, EMPTY_DISK, "e1"));
    RoundTrip(cfg.codec, []);
    assert Serialize(cfg.codec, []) == [];
  }

  lemma DoneInTurn(cfg: Config, s: Store)
    requires !s.closed
    ensures
      var l := cfg.limits;
      AllDone(cfg, s, RUNNING_AND_ASKING).mem
      == Appended(l, Appended(l, Appended(l, s.mem, SessionState(true), 0), ASKED, 0), Message("m"), 0)
  {
    hide Appended, AppendedTo;
    var ops := RUNNING_AND_ASKING;
    AppendMem(cfg, s, SessionState(true), 0);
    var a := AppendedTo(cfg, s, SessionState(true), 0);
    AppendMem(cfg, a, ASKED, 0);
    var b := AppendedTo(cfg, a, ASKED, 0);
    AppendMem(cfg, b, Message("m"), 0);
    assert ops[1..] == [ops[1], ops[2]] && ops[1..][1..] == [ops[2]] && [ops[2]][1..] == [];
    assert AllDone(cfg, s, ops) == AllDone(cfg, a, ops[1..]);
    assert AllDone(cfg, a, ops[1..]) == AllDone(cfg, b, [ops[2]]);
    assert AllDone(cfg, b, [ops[2]]) == AllDone(cfg, AppendedTo(cfg, b, Message("m"), 0), []);
  }

  /**
   * A process that opened an empty disk, started a turn and asked for a permission, in a journal with room for one
   * entry: in memory the turn is running and the request open, but after a crash neither is known any more, so
   * no recovery can close the request.
   */
  lemma EvictedIsForgotten(codec: Codec)
    requires codec.Valid()
    ensures
      var cfg := Config(codec, RoomForOne(), (event: WireEvent) => IsBoundary(event));
      && ReadLog(codec, []).validBytes <= 0
      && var s := AllDone(cfg, Recovered(cfg, EMPTY_DISK, "e1"), RUNNING_AND_ASKING);
      && s.mem.checkpoint.state == Some(Entry(1, 0, SessionState(true)))
      && s.mem.checkpoint.openRequests == [Entry(2, 0, ASKED)]
      && RecoveredMem(cfg, s.disk).checkpoint.state == None
      && RecoveredMem(cfg, s.disk).checkpoint.openRequests == []
  {
    hide Life, RecoveredMem, Recovered, AllDone, ReadLog, Appended, IsBoundary, Fold;
    var cfg := Config(codec, RoomForOne(), (event: WireEvent) => IsBoundary(event));
    OpensFresh(cfg);
    var s0 := Recovered(cfg, EMPTY_DISK, "e1");
    RecoveredLives(cfg, EMPTY_DISK, "e1");
    AllDoneKeepsLife(cfg, s0, RUNNING_AND_ASKING);
    DoneInTurn(cfg, s0);
    EvictedInTurn();
    var s := AllDone(cfg, s0, RUNNING_AND_ASKING);
    assert s.disk.log + [] == s.disk.log && Torn(cfg, s, 0) == s.disk;
    var next := if KnowsEpoch(s.disk.idx, "e2") then "e3" else "e2";
    RequestsSurviveCrash(cfg, s, 0, next);
    StateSurvivesCrash(cfg, s, 0, next);
    var back := RecoveredMem(cfg, s.disk).checkpoint.openRequests;
    if back != [] {
      HasSome(back);
    }
  }
}
