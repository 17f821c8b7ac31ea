/**
 * Whole runs of the durable journal: any interleaving of appends, flushes, acks, compactions, crashes at any byte of
 * a write, restarts under new process epochs, a lost sidecar, and damage that leaves any bytes at all as the log. The
 * property is the one the epoch chain exists for (`rewindFor`, daemon/diskJournal.ts): a returning client never keeps a
 * cursor into history that a later process has replaced.
 */
module DiskRuns {
  import opened Common
  import opened Wire
  import opened LogParser
  import opened MemoryJournal
  import opened DiskJournals
  import opened DiskDurability

  /**
   * One process that wrote to the journal. `hist` is the history as that process knew it at its end (or now): at `i`
   * the entry given number `i + 1`, if any was; those past `startSeq` were numbered by this process.
   */
  datatype Life = Life(epoch: string, startSeq: nat, hist: seq<Option<Entry>>)

  datatype Machine = Stopped(disk: Disk) | Running(store: Store)

  /** `madeUp` is every record that damage made readable: no process wrote it where it was read. */
  datatype World = World(machine: Machine, lives: seq<Life>, madeUp: set<Entry>)

  datatype Step =
    | Append(event: WireEvent, ts: int)
    | Flush(sync: bool)
    | Ack(seqNo: int)
    | Compact(now: int)
    | Crash(k: nat)
    | Open(epoch: string)
    | LoseSidecar
    | Damage(log: bytes)

  /**
   * A process opens with an epoch of its own (a fresh UUID); a crash may tear the write of the buffered lines (a
   * rewrite is atomic); damage may do anything to the log.
   */
  ghost predicate Allowed(cfg: Config, w: World, step: Step) {
    match step
    case Append(_, _) => w.machine.Running?
    case Flush(_) => w.machine.Running?
    case Ack(_) => w.machine.Running?
    case Compact(_) => w.machine.Running?
    case Crash(k) =>
      && w.machine.Running? && k <= |Serialize(cfg.codec, w.machine.store.buffer)|
      && (w.machine.store.needsRewrite ==> k == 0)
    case Open(epoch) =>
      && w.machine.Stopped? && epoch != "" && (forall life | life in w.lives :: life.epoch != epoch)
      && ReadLog(cfg.codec, w.machine.disk.log).validBytes <= |w.machine.disk.log|
    case LoseSidecar => w.machine.Stopped?
    case Damage(log) => w.machine.Stopped?
  }

  ghost function Next(cfg: Config, w: World, step: Step): World
    requires Allowed(cfg, w, step)
  {
    match step
    case Append(event, ts) =>
      var s := w.machine.store;
      World(Running(AppendedTo(cfg, s, event, ts)), Extended(w.lives, NextEntry(s.mem, event, ts)), w.madeUp)
    case Flush(sync) => w.(machine := Running(Flushed(cfg, w.machine.store, sync)))
    case Ack(n) => w.(machine := Running(AckedBy(w.machine.store, n)))
    case Compact(now) => w.(machine := Running(CompactedTo(cfg, w.machine.store, now)))
    case Crash(k) => w.(machine := Stopped(Torn(cfg, w.machine.store, k)))
    case Open(epoch) =>
      var s := Recovered(cfg, w.machine.disk, epoch);
      World(Running(s), w.lives + [Life(epoch, s.mem.lastSeq, Resumed(w.lives, s.mem.lastSeq))], w.madeUp)
    case LoseSidecar => w.(machine := Stopped(w.machine.disk.(idx := None)))
    case Damage(log) =>
      w.(machine := Stopped(w.machine.disk.(log := log)),
         madeUp := w.madeUp + MadeUp(cfg, w.machine.disk.log, log))
  }

  ghost function MadeUp(cfg: Config, before: bytes, after: bytes): set<Entry> {
    set e | e in ReadLog(cfg.codec, after).entries && e !in ReadLog(cfg.codec, before).entries
  }

  function Extended(lives: seq<Life>, e: Entry): seq<Life> {
    if lives == [] then [] else
      var last := lives[|lives| - 1];
      lives[..|lives| - 1] + [last.(hist := last.hist + [Some(e)])]
  }

  function Unknown(n: nat): (r: seq<Option<Entry>>)
    ensures |r| == n && forall i | 0 <= i < n :: r[i] == None
  {
    if n == 0 then [] else Unknown(n - 1) + [None]
  }

  /** The first `n` numbers of a history; a number nobody gave stands for nothing. */
  function FirstOf(hist: seq<Option<Entry>>, n: nat): (r: seq<Option<Entry>>)
    ensures |r| == n
  {
    if n <= |hist| then hist[..n] else hist + Unknown(n - |hist|)
  }

  /** The history a process takes over when it recovers `n` numbers: a believed damaged record may skip some. */
  function Resumed(lives: seq<Life>, n: nat): seq<Option<Entry>> {
    FirstOf(Hist(lives), n)
  }

  // ---- the invariant ------------------------------------------------------------------------------------------

  function Hist(lives: seq<Life>): seq<Option<Entry>> {
    if lives == [] then [] else lives[|lives| - 1].hist
  }

  function LastStart(lives: seq<Life>): nat {
    if lives == [] then 0 else lives[|lives| - 1].startSeq
  }

  ghost predicate Numbered(hist: seq<Option<Entry>>) {
    forall i | 0 <= i < |hist| && hist[i].Some? :: hist[i].value.seqNo == i + 1
  }

  /** A process gives every number past its start. */
  ghost predicate GaveAll(life: Life) {
    forall i | life.startSeq <= i < |life.hist| :: life.hist[i].Some?
  }

  /** The entry is the one history gave that number to. */
  ghost predicate Is(hist: seq<Option<Entry>>, e: Entry) {
    0 < e.seqNo <= |hist| && hist[e.seqNo - 1] == Some(e)
  }

  /** Every entry is history's, or damage made it up. */
  ghost predicate PartOf(es: seq<Entry>, hist: seq<Option<Entry>>, madeUp: set<Entry>) {
    forall e | e in es :: e in madeUp || Is(hist, e)
  }

  /** Each process took over the beginning of the history of the one before it. */
  ghost predicate Forks(lives: seq<Life>) {
    && (forall k | 0 <= k < |lives| ::
          lives[k].startSeq <= |lives[k].hist| && Numbered(lives[k].hist) && GaveAll(lives[k]))
    && (forall k | 0 < k < |lives| ::
          lives[k].hist[..lives[k].startSeq] == FirstOf(lives[k - 1].hist, lives[k].startSeq))
  }

  ghost predicate Distinct(lives: seq<Life>) {
    && (forall k | 0 <= k < |lives| :: lives[k].epoch != "")
    && (forall i, k | 0 <= i < k < |lives| :: lives[i].epoch != lives[k].epoch)
  }

  /** The chain records the most recent processes, with start numbers that never go down. */
  ghost predicate ChainMatches(chain: seq<Epoch>, lives: seq<Life>) {
    && |chain| <= |lives|
    && (forall i | 0 <= i < |chain| ::
          var life := lives[|lives| - |chain| + i]; chain[i] == Epoch(life.epoch, life.startSeq))
    && (forall i, j | 0 <= i < j < |chain| :: chain[i].startSeq <= chain[j].startSeq)
  }

  ghost predicate RunningOk(cfg: Config, s: Store, lives: seq<Life>, madeUp: set<Entry>) {
    && Inv(cfg, s)
    && lives != [] && lives[|lives| - 1].epoch == s.epoch
    && s.mem.lastSeq == |Hist(lives)| && PartOf(Known(cfg, s), Hist(lives), madeUp)
    && s.chain != [] && ChainMatches(s.chain, lives)
    && LastStart(lives) <= s.disk.idx.value.lastSeq
  }

  ghost predicate StoppedOk(cfg: Config, d: Disk, lives: seq<Life>, madeUp: set<Entry>) {
    && cfg.codec.Valid()
    && PartOf(ReadLog(cfg.codec, d.log).entries, Hist(lives), madeUp)
    && ChainMatches(ChainOf(d.idx), lives)
    && (d.idx.Some? ==> LastStart(lives) <= d.idx.value.lastSeq)
  }

  ghost predicate WorldInv(cfg: Config, w: World) {
    && Forks(w.lives) && Distinct(w.lives)
    && match w.machine
       case Running(s) => RunningOk(cfg, s, w.lives, w.madeUp)
       case Stopped(d) => StoppedOk(cfg, d, w.lives, w.madeUp)
  }

  // ---- every step keeps it ------------------------------------------------------------------------------------

  lemma AppendStep(cfg: Config, w: World, event: WireEvent, ts: int)
    requires WorldInv(cfg, w) && w.machine.Running?
    ensures WorldInv(cfg, Next(cfg, w, Append(event, ts)))
  {
    var s := w.machine.store;
    var t := AppendedTo(cfg, s, event, ts);
    AppendKeepsInv(cfg, s, event, ts);
    KnownStays(cfg, s, event, ts);
    AppendFrame(cfg, s, event, ts);
    AppendedOk(cfg, s, t, NextEntry(s.mem, event, ts), w.lives, w.madeUp);
  }

  lemma AppendFrame(cfg: Config, s: Store, event: WireEvent, ts: int)
    requires Inv(cfg, s)
    ensures
      var t := AppendedTo(cfg, s, event, ts);
      && t.mem.lastSeq == s.mem.lastSeq + 1 && t.epoch == s.epoch && t.chain == s.chain
      && t.disk.idx.Some? && t.disk.idx.value.lastSeq >= s.disk.idx.value.lastSeq
  {
    AppendedValid(cfg.limits, s.mem, event, ts);
  }

  lemma AppendedOk(cfg: Config, s: Store, t: Store, e: Entry, lives: seq<Life>, madeUp: set<Entry>)
    requires RunningOk(cfg, s, lives, madeUp) && Inv(cfg, t) && Forks(lives) && Distinct(lives)
    requires e.seqNo == s.mem.lastSeq + 1 == t.mem.lastSeq && t.epoch == s.epoch && t.chain == s.chain
    requires t.disk.idx.Some? && t.disk.idx.value.lastSeq >= s.disk.idx.value.lastSeq
    requires forall k | k in Known(cfg, t) :: k in Known(cfg, s) || k == e
    ensures Forks(Extended(lives, e)) && Distinct(Extended(lives, e)) && RunningOk(cfg, t, Extended(lives, e), madeUp)
  {
    hide Inv, Known, Forks;
    ExtendedForks(lives, e);
    var hist := Hist(Extended(lives, e));
    forall k | k in Known(cfg, t)
      ensures k in madeUp || Is(hist, k)
    {
    }
  }

  lemma ExtendedForks(lives: seq<Life>, e: Entry)
    requires Forks(lives) && lives != [] && e.seqNo == |Hist(lives)| + 1
    ensures Forks(Extended(lives, e)) && Hist(Extended(lives, e)) == Hist(lives) + [Some(e)]
    ensures |Extended(lives, e)| == |lives|
    ensures forall k | 0 <= k < |lives| :: Extended(lives, e)[k].epoch == lives[k].epoch
                                        && Extended(lives, e)[k].startSeq == lives[k].startSeq
  {
    hide FirstOf;
    var n := |lives| - 1;
    var more := Extended(lives, e);
    assert forall k | 0 <= k < n :: more[k] == lives[k];
    assert more[n].hist[..more[n].startSeq] == lives[n].hist[..lives[n].startSeq];
    OneMore(lives[n], e);
  }

  lemma OneMore(life: Life, e: Entry)
    requires Numbered(life.hist) && GaveAll(life) && e.seqNo == |life.hist| + 1
    ensures Numbered(life.hist + [Some(e)]) && GaveAll(life.(hist := life.hist + [Some(e)]))
  {
  }

  /** An append makes at most one more entry known. */
  lemma KnownStays(cfg: Config, s: Store, event: WireEvent, ts: int)
    requires Inv(cfg, s)
    ensures forall k | k in Known(cfg, AppendedTo(cfg, s, event, ts)) ::
      k in Known(cfg, s) || k == NextEntry(s.mem, event, ts)
  {
    var b := Buffered(cfg, s, event, ts);
    BufferedMatches(cfg, s, event, ts);
    assert Known(cfg, b) == Known(cfg, s) + [NextEntry(s.mem, event, ts)];
    if cfg.isBoundary(event) || b.needsRewrite {
      FlushKnown(cfg, b, true);
    }
  }

  lemma ViewWithin(es: seq<Entry>, lowWater: nat, floor: nat)
    requires Increasing(es)
    ensures forall e | e in View(es, lowWater, floor) :: e in es
  {
    AboveKeeps(es, lowWater);
    DropTokensKeeps(Above(es, lowWater), floor);
  }

  /** A flush makes nothing new known. */
  lemma FlushKnown(cfg: Config, s: Store, sync: bool)
    requires cfg.codec.Valid() && !s.closed && DiskMatches(cfg, s)
    ensures forall k | k in Known(cfg, Flushed(cfg, s, sync)) :: k in Known(cfg, s)
  {
    FlushedMatches(cfg, s, sync);
    if s.needsRewrite {
      ViewHasNoTokens(Known(cfg, s), s.mem.lowWater, s.dropped);
      RewrittenMatches(cfg, s);
      ViewWithin(Known(cfg, s), s.mem.lowWater, s.dropped);
      var t := Rewritten(cfg, s).(buffer := []);
      assert Known(cfg, Flushed(cfg, s, sync)) == Known(cfg, t) == s.mem.entries;
    }
  }

  lemma FlushStep(cfg: Config, w: World, sync: bool)
    requires WorldInv(cfg, w) && w.machine.Running?
    ensures WorldInv(cfg, Next(cfg, w, Flush(sync)))
  {
    hide Flushed, Inv, Known;
    var s := w.machine.store;
    FlushKeepsInv(cfg, s, sync);
    FlushFrame(cfg, s, sync);
    SameLifeOk(cfg, s, Flushed(cfg, s, sync), w.lives, w.madeUp);
  }

  lemma FlushFrame(cfg: Config, s: Store, sync: bool)
    requires Inv(cfg, s)
    ensures
      var t := Flushed(cfg, s, sync);
      && t.mem.lastSeq == s.mem.lastSeq && t.epoch == s.epoch && t.chain == s.chain
      && t.disk.idx.Some? && t.disk.idx.value.lastSeq >= s.disk.idx.value.lastSeq
    ensures forall k | k in Known(cfg, Flushed(cfg, s, sync)) :: k in Known(cfg, s)
  {
    hide Known, DiskMatches;
    FlushKnown(cfg, s, sync);
  }

  lemma AckStep(cfg: Config, w: World, seqNo: int)
    requires WorldInv(cfg, w) && w.machine.Running?
    ensures WorldInv(cfg, Next(cfg, w, Ack(seqNo)))
  {
    AckKeepsInv(cfg, w.machine.store, seqNo);
  }

  lemma CompactStep(cfg: Config, w: World, now: int)
    requires WorldInv(cfg, w) && w.machine.Running?
    ensures WorldInv(cfg, Next(cfg, w, Compact(now)))
  {
    hide CompactedTo, Inv, Known;
    var s := w.machine.store;
    CompactKeepsInv(cfg, s, now);
    CompactKnown(cfg, s, now);
    CompactFrame(cfg, s, now);
    SameLifeOk(cfg, s, CompactedTo(cfg, s, now), w.lives, w.madeUp);
  }

  lemma SameLifeOk(cfg: Config, s: Store, t: Store, lives: seq<Life>, madeUp: set<Entry>)
    requires RunningOk(cfg, s, lives, madeUp) && Inv(cfg, t)
    requires t.mem.lastSeq == s.mem.lastSeq && t.epoch == s.epoch && t.chain == s.chain
    requires t.disk.idx.Some? && t.disk.idx.value.lastSeq >= s.disk.idx.value.lastSeq
    requires forall k | k in Known(cfg, t) :: k in Known(cfg, s)
    ensures RunningOk(cfg, t, lives, madeUp)
  {
    hide Inv, Known;
  }

  lemma CompactFrame(cfg: Config, s: Store, now: int)
    requires Inv(cfg, s)
    ensures
      var t := CompactedTo(cfg, s, now);
      && t.mem.lastSeq == s.mem.lastSeq && t.epoch == s.epoch && t.chain == s.chain
      && t.disk.idx.Some? && t.disk.idx.value.lastSeq >= s.disk.idx.value.lastSeq
  {
    CompactedFrame(cfg.limits, s.mem, now);
  }

  lemma CompactKnown(cfg: Config, s: Store, now: int)
    requires Inv(cfg, s)
    ensures forall k | k in Known(cfg, CompactedTo(cfg, s, now)) :: k in Known(cfg, s)
  {
    var l := cfg.limits;
    CompactedView(cfg, s, now);
    CompactedValid(l, s.mem, now);
    CompactedFrame(l, s.mem, now);
    var c := s.(mem := Compacted(l, s.mem, now),
                dropped := Max(s.dropped, AckFloor(Expired(l, s.mem, now).entries, s.mem.ackedSeq, 0)));
    assert Known(cfg, c) == Known(cfg, s);
    CompactFlushKnown(cfg, c.(needsRewrite := true));
  }

  lemma CompactFlushKnown(cfg: Config, c: Store)
    requires cfg.codec.Valid() && !c.closed && DiskMatches(cfg, c)
    ensures forall k | k in Known(cfg, Flushed(cfg, c, true)) :: k in Known(cfg, c)
  {
    FlushKnown(cfg, c, true);
  }

  lemma CrashStep(cfg: Config, w: World, k: nat)
    requires WorldInv(cfg, w) && Allowed(cfg, w, Crash(k))
    ensures WorldInv(cfg, Next(cfg, w, Crash(k)))
  {
    TornKnown(cfg, w.machine.store, k);
    CrashedOk(cfg, w.machine.store, Torn(cfg, w.machine.store, k), w.lives, w.madeUp);
  }

  /** What a crash leaves in the file was known before it. */
  lemma TornKnown(cfg: Config, s: Store, k: nat)
    requires Inv(cfg, s) && k <= |Serialize(cfg.codec, s.buffer)|
    ensures forall e | e in ReadLog(cfg.codec, Torn(cfg, s, k).log).entries :: e in Known(cfg, s)
  {
    hide Inv, ReadLog, Torn, WholeLines, Encoded;
    var n := WholeLines(Encoded(cfg.codec, s.buffer), k);
    TornReads(cfg, s, k);
    assert s.buffer == s.buffer[..n] + s.buffer[n..];
    Associate(Logged(cfg, s), s.buffer[..n], s.buffer[n..]);
  }

  lemma CrashedOk(cfg: Config, s: Store, d: Disk, lives: seq<Life>, madeUp: set<Entry>)
    requires RunningOk(cfg, s, lives, madeUp) && d.idx == s.disk.idx
    requires forall e | e in ReadLog(cfg.codec, d.log).entries :: e in Known(cfg, s)
    ensures StoppedOk(cfg, d, lives, madeUp)
  {
    hide DiskMatches, Known, ReadLog;
  }

  lemma OpenStep(cfg: Config, w: World, epoch: string)
    requires WorldInv(cfg, w) && Allowed(cfg, w, Open(epoch))
    ensures WorldInv(cfg, Next(cfg, w, Open(epoch)))
  {
    var d := w.machine.disk;
    NewEpochUnknown(d.idx, w.lives, epoch);
    OpenEstablishesInv(cfg, d, epoch);
    RecoveredBound(cfg, d, w.lives, w.madeUp);
    RecoveredKnown(cfg, d, epoch);
    RecoveredFrame(cfg, d, epoch);
    OpenedOk(cfg, d, w.lives, w.madeUp, Recovered(cfg, d, epoch));
  }

  lemma RecoveredFrame(cfg: Config, d: Disk, epoch: string)
    requires ReadLog(cfg.codec, d.log).validBytes <= |d.log|
    ensures Recovered(cfg, d, epoch).epoch == epoch
  {
  }

  lemma OpenedOk(cfg: Config, d: Disk, lives: seq<Life>, madeUp: set<Entry>, s: Store)
    requires StoppedOk(cfg, d, lives, madeUp) && Forks(lives) && Distinct(lives) && Inv(cfg, s)
    requires s.epoch != "" && forall life | life in lives :: life.epoch != s.epoch
    requires d.idx.Some? ==> LastStart(lives) <= s.mem.lastSeq
    requires s.chain == RecordEpoch(d.idx, s.epoch, s.mem.lastSeq)
    requires s.disk.idx.Some? && s.disk.idx.value.lastSeq == s.mem.lastSeq
    requires forall e | e in Known(cfg, s) :: e in ReadLog(cfg.codec, d.log).entries && e.seqNo <= s.mem.lastSeq
    ensures
      var more := lives + [Life(s.epoch, s.mem.lastSeq, Resumed(lives, s.mem.lastSeq))];
      Forks(more) && Distinct(more) && RunningOk(cfg, s, more, madeUp)
  {
    hide Inv, Known, ReadLog, RecordEpoch, Forks, Distinct;
    ResumedForks(lives, s.epoch, s.mem.lastSeq);
    NewEpochUnknown(d.idx, lives, s.epoch);
    ChainGrows(d.idx, lives, s.epoch, s.mem.lastSeq);
    var more := lives + [Life(s.epoch, s.mem.lastSeq, Resumed(lives, s.mem.lastSeq))];
    assert more[|more| - 1].epoch == s.epoch;
  }

  lemma NewEpochUnknown(idx: Option<Index>, lives: seq<Life>, epoch: string)
    requires ChainMatches(ChainOf(idx), lives) && (forall life | life in lives :: life.epoch != epoch)
    ensures !KnowsEpoch(idx, epoch)
    ensures ChainOf(idx) != [] ==> ChainOf(idx)[|ChainOf(idx)| - 1].name != epoch
  {
    var chain := ChainOf(idx);
    if chain != [] {
      assert lives[|lives| - |chain| + (|chain| - 1)] in lives;
    }
  }

  /** With its sidecar in place a journal never starts over below where the last process started. */
  lemma RecoveredBound(cfg: Config, d: Disk, lives: seq<Life>, madeUp: set<Entry>)
    requires StoppedOk(cfg, d, lives, madeUp)
    ensures d.idx.Some? ==> LastStart(lives) <= RecoveredMem(cfg, d).lastSeq
  {
    hide ReadLog, Above;
  }

  lemma ResumedForks(lives: seq<Life>, epoch: string, n: nat)
    requires Forks(lives) && Distinct(lives)
    requires epoch != "" && forall life | life in lives :: life.epoch != epoch
    ensures
      var more := lives + [Life(epoch, n, Resumed(lives, n))];
      Forks(more) && Distinct(more) && Hist(more) == FirstOf(Hist(lives), n)
  {
    hide Forks, Distinct, FirstOf;
    var life := Life(epoch, n, Resumed(lives, n));
    DistinctMore(lives, life);
    if lives != [] {
      LastNumbered(lives);
    }
    FirstNumbered(Hist(lives), n);
    assert life.hist[..n] == life.hist;
    ForksMore(lives, life);
  }

  lemma LastNumbered(lives: seq<Life>)
    requires Forks(lives) && lives != []
    ensures Numbered(Hist(lives))
  {
  }

  lemma DistinctMore(lives: seq<Life>, life: Life)
    requires Distinct(lives) && life.epoch != "" && forall other | other in lives :: other.epoch != life.epoch
    ensures Distinct(lives + [life])
  {
    assert forall k | 0 <= k < |lives| :: lives[k] in lives && (lives + [life])[k] == lives[k];
  }

  lemma ForksMore(lives: seq<Life>, life: Life)
    requires Forks(lives) && life.startSeq == |life.hist| && Numbered(life.hist)
    requires life.hist[..life.startSeq] == FirstOf(Hist(lives), life.startSeq)
    ensures Forks(lives + [life])
  {
    hide FirstOf, Numbered;
    var more := lives + [life];
    assert forall k | 0 <= k < |lives| :: more[k] == lives[k];
    assert GaveAll(life);
  }

  lemma FirstNumbered(hist: seq<Option<Entry>>, n: nat)
    requires Numbered(hist)
    ensures Numbered(FirstOf(hist, n))
  {
  }

  lemma ChainGrows(idx: Option<Index>, lives: seq<Life>, epoch: string, n: nat)
    requires ChainMatches(ChainOf(idx), lives) && (idx.Some? ==> LastStart(lives) <= n)
    requires ChainOf(idx) != [] ==> ChainOf(idx)[|ChainOf(idx)| - 1].name != epoch
    ensures RecordEpoch(idx, epoch, n) != []
    ensures ChainMatches(RecordEpoch(idx, epoch, n), lives + [Life(epoch, n, Resumed(lives, n))])
  {
    var more := lives + [Life(epoch, n, Resumed(lives, n))];
    var extended := ChainOf(idx) + [Epoch(epoch, n)];
    ChainPushed(ChainOf(idx), lives, more[|lives|]);
    ChainCut(extended, more, MAX_EPOCH_HISTORY);
  }

  lemma ChainPushed(chain: seq<Epoch>, lives: seq<Life>, life: Life)
    requires ChainMatches(chain, lives) && (chain != [] ==> LastStart(lives) <= life.startSeq)
    ensures ChainMatches(chain + [Epoch(life.epoch, life.startSeq)], lives + [life])
  {
    var more := lives + [life];
    var all := chain + [Epoch(life.epoch, life.startSeq)];
    var off := |lives| - |chain|;
    if chain != [] {
      assert chain[|chain| - 1] == Epoch(lives[off + (|chain| - 1)].epoch, lives[off + (|chain| - 1)].startSeq);
    }
    forall i | 0 <= i < |all|
      ensures all[i] == Epoch(more[off + i].epoch, more[off + i].startSeq)
    {
      if i < |chain| {
        assert all[i] == chain[i] && more[off + i] == lives[off + i];
      }
    }
  }

  lemma ChainCut(chain: seq<Epoch>, lives: seq<Life>, n: nat)
    requires ChainMatches(chain, lives)
    ensures ChainMatches(LastN(chain, n), lives)
  {
    var kept := LastN(chain, n);
    var cut := |chain| - |kept|;
    assert kept == chain[cut..];
    forall i | 0 <= i < |kept|
      ensures kept[i] == chain[cut + i]
      ensures var life := lives[|lives| - |kept| + i]; kept[i] == Epoch(life.epoch, life.startSeq)
    {
      var life := lives[|lives| - |chain| + (cut + i)];
      assert chain[cut + i] == Epoch(life.epoch, life.startSeq);
    }
  }

  /** Recovery knows only what was in the log. */
  lemma RecoveredKnown(cfg: Config, d: Disk, epoch: string)
    requires cfg.codec.Valid() && !KnowsEpoch(d.idx, epoch)
    ensures ReadLog(cfg.codec, d.log).validBytes <= |d.log|
    ensures forall e | e in Known(cfg, Recovered(cfg, d, epoch)) ::
      e in ReadLog(cfg.codec, d.log).entries && e.seqNo <= Recovered(cfg, d, epoch).mem.lastSeq
  {
    OpenEstablishesInv(cfg, d, epoch);
    TruncateIsIdempotent(cfg.codec, d.log);
    if ReadLog(cfg.codec, d.log).skipped > 0 {
      RewrittenKnown(cfg, d, epoch);
    } else {
      assert Known(cfg, Recovered(cfg, d, epoch)) == ReadLog(cfg.codec, d.log).entries;
    }
  }

  lemma RewrittenKnown(cfg: Config, d: Disk, epoch: string)
    requires cfg.codec.Valid() && ReadLog(cfg.codec, d.log).validBytes <= |d.log|
    requires ReadLog(cfg.codec, d.log).skipped > 0
    ensures forall e | e in Known(cfg, Recovered(cfg, d, epoch)) :: e in ReadLog(cfg.codec, d.log).entries
  {
    var t := Reopened(cfg, d, epoch);
    RecoveredMemWithin(cfg, d);
    NothingToDrop(t.mem.entries, 0);
    FlushRewrites(cfg, t);
  }

  lemma RecoveredMemWithin(cfg: Config, d: Disk)
    ensures Valid(cfg.limits, RecoveredMem(cfg, d))
    ensures forall e | e in RecoveredMem(cfg, d).entries :: e in ReadLog(cfg.codec, d.log).entries
  {
    var es := ReadLog(cfg.codec, d.log).entries;
    ReadIncreasing(cfg.codec, d.log);
    AboveKeeps(es, LowWaterOf(d.idx));
    RestoredValid(cfg.limits, es, Max(if d.idx.Some? then d.idx.value.lastSeq else 0, LastSeq(es)),
                  LowWaterOf(d.idx), if d.idx.Some? then d.idx.value.ackedSeq else 0);
  }

  /** A flush that owes a rewrite makes exactly the retained entries known. */
  lemma FlushRewrites(cfg: Config, s: Store)
    requires cfg.codec.Valid() && Valid(cfg.limits, s.mem) && Harmless(s.mem, s.dropped)
    requires DropTokens(s.mem.entries, s.dropped) == s.mem.entries && s.needsRewrite && !s.closed
    ensures Known(cfg, Flushed(cfg, s, true)) == s.mem.entries
  {
    RewrittenMatches(cfg, s);
    assert Known(cfg, Flushed(cfg, s, true)) == Known(cfg, Rewritten(cfg, s).(buffer := []));
  }

  lemma StepKeepsInv(cfg: Config, w: World, step: Step)
    requires WorldInv(cfg, w) && Allowed(cfg, w, step)
    ensures WorldInv(cfg, Next(cfg, w, step))
  {
    match step
    case Append(event, ts) => AppendStep(cfg, w, event, ts);
    case Flush(sync) => FlushStep(cfg, w, sync);
    case Ack(n) => AckStep(cfg, w, n);
    case Compact(now) => CompactStep(cfg, w, now);
    case Crash(k) => CrashStep(cfg, w, k);
    case Open(epoch) => OpenStep(cfg, w, epoch);
    case LoseSidecar =>
    case Damage(log) =>
  }

  // ---- runs ---------------------------------------------------------------------------------------------------

  /**
   * A run starts from an empty data directory, or from one an older daemon left: a sidecar without a chain, whose
   * process knew `hist`.
   */
  ghost predicate Initial(cfg: Config, w: World) {
    && cfg.codec.Valid() && w.machine.Stopped?
    && var d := w.machine.disk;
       || (d == Disk([], None) && w.lives == [] && w.madeUp == {})
       || (exists hist, i: Index :: IsLegacy(cfg, w, hist, i))
  }

  ghost predicate IsLegacy(cfg: Config, w: World, hist: seq<Option<Entry>>, i: Index)
    requires w.machine.Stopped?
  {
    && w.machine.disk.idx == Some(i) && i.epochs.None? && i.epoch != "" && w.lives == [Life(i.epoch, 0, hist)]
    && Numbered(hist) && (forall o | o in hist :: o.Some?)
    && PartOf(ReadLog(cfg.codec, w.machine.disk.log).entries, hist, {}) && w.madeUp == {}
  }

  ghost predicate IsRun(cfg: Config, w: World, steps: seq<Step>, end: World)
    decreases |steps|
  {
    if steps == [] then w == end
    else Allowed(cfg, w, steps[0]) && IsRun(cfg, Next(cfg, w, steps[0]), steps[1..], end)
  }

  lemma {:induction false} RunKeepsInv(cfg: Config, w: World, steps: seq<Step>, end: World)
    requires WorldInv(cfg, w) && IsRun(cfg, w, steps, end)
    ensures WorldInv(cfg, end)
    decreases |steps|
  {
    if steps != [] {
      StepKeepsInv(cfg, w, steps[0]);
      RunKeepsInv(cfg, Next(cfg, w, steps[0]), steps[1..], end);
    }
  }

  lemma InitialInv(cfg: Config, w: World)
    requires Initial(cfg, w)
    ensures WorldInv(cfg, w)
  {
    var d := w.machine.disk;
    if d == Disk([], None) && w.lives == [] {
      assert ReadLog(cfg.codec, []).entries == [];
    } else {
      hide WorldInv;
      var hist, i: Index :| IsLegacy(cfg, w, hist, i);
      LegacyInv(cfg, w, hist, i);
    }
  }

  lemma LegacyInv(cfg: Config, w: World, hist: seq<Option<Entry>>, i: Index)
    requires cfg.codec.Valid() && w.machine.Stopped? && IsLegacy(cfg, w, hist, i)
    ensures WorldInv(cfg, w)
  {
    hide ReadLog;
    var life := Life(i.epoch, 0, hist);
    assert |w.lives| == 1 && w.lives[0] == life && Hist(w.lives) == hist;
    assert ChainOf(w.machine.disk.idx) == [Epoch(i.epoch, 0)];
  }

  // ---- rewinding is sound -------------------------------------------------------------------------------------

  /** Processes after `i`, up to `j`, agree with `i` on everything below the first restart after it. */
  lemma {:induction false} SharedHistory(lives: seq<Life>, i: nat, j: nat, c: nat)
    requires Forks(lives) && i <= j < |lives| && c <= |lives[i].hist|
    requires forall k | i < k <= j :: c <= lives[k].startSeq
    ensures c <= |lives[j].hist| && lives[j].hist[..c] == lives[i].hist[..c]
  {
    if i < j {
      SharedHistory(lives, i, j - 1, c);
      SharedOnce(lives[j - 1].hist, lives[j].hist, lives[j].startSeq, c);
    }
  }

  lemma SharedOnce(a: seq<Option<Entry>>, b: seq<Option<Entry>>, start: nat, c: nat)
    requires start <= |b| && b[..start] == FirstOf(a, start) && c <= start && c <= |a|
    ensures b[..c] == a[..c]
  {
    assert b[..c] == b[..start][..c];
    assert a[..c] == FirstOf(a, start)[..c];
  }

  /** Every number the process gave out is past `c`. */
  ghost predicate GaveOnlyPast(life: Life, c: nat) {
    && life.startSeq <= |life.hist|
    && forall n | life.startSeq <= n < |life.hist| :: life.hist[n].Some? && life.hist[n].value.seqNo > c
  }

  lemma {:induction false} IndexOfEpochIs(chain: seq<Epoch>, k: nat)
    requires k < |chain| && forall i | 0 <= i < k :: chain[i].name != chain[k].name
    ensures IndexOfEpoch(chain, chain[k].name) == k
  {
    if k > 0 {
      IndexOfEpochIs(chain[1..], k - 1);
    }
  }

  /** The cursor a client may keep: what `rewindFor` answers, or its own. */
  function Resume(s: Store, epoch: string, afterSeq: nat): nat {
    match Rewind(s, Some(epoch), afterSeq)
    case Some(c) => c
    case None => afterSeq
  }

  lemma RewindIsCut(cfg: Config, w: World, i: nat, afterSeq: nat)
    requires WorldInv(cfg, w) && w.machine.Running? && i < |w.lives| && |w.lives| - |w.machine.store.chain| <= i
    ensures Rewind(w.machine.store, Some(w.lives[i].epoch), afterSeq)
         == if i < |w.lives| - 1 && w.lives[i + 1].startSeq < afterSeq then Some(w.lives[i + 1].startSeq) else None
  {
    hide Inv, Forks, PartOf, Known;
    var s, lives := w.machine.store, w.lives;
    var off := |lives| - |s.chain|;
    var k := i - off;
    assert s.chain[k] == Epoch(lives[off + k].epoch, lives[off + k].startSeq);
    forall m | 0 <= m < k
      ensures s.chain[m].name != s.chain[k].name
    {
      assert s.chain[m].name == lives[off + m].epoch;
    }
    IndexOfEpochIs(s.chain, k);
    if i < |lives| - 1 {
      assert s.chain[k + 1] == Epoch(lives[off + (k + 1)].epoch, lives[off + (k + 1)].startSeq);
    }
  }

  /** Under an epoch still in the chain the answer is the client's cursor, cut at the next process's start. */
  lemma ResumeIsCut(cfg: Config, w: World, i: nat, afterSeq: nat)
    requires WorldInv(cfg, w) && w.machine.Running? && i < |w.lives|
    requires |w.lives| - |w.machine.store.chain| <= i
    ensures Resume(w.machine.store, w.lives[i].epoch, afterSeq)
         == if i == |w.lives| - 1 then afterSeq else Min(afterSeq, w.lives[i + 1].startSeq)
    ensures forall k | i < k < |w.lives| :: w.lives[i + 1].startSeq <= w.lives[k].startSeq
  {
    hide Inv, Forks, PartOf, Known;
    var s, lives := w.machine.store, w.lives;
    var off := |lives| - |s.chain|;
    RewindIsCut(cfg, w, i, afterSeq);
    forall m | i < m < |lives|
      ensures lives[i + 1].startSeq <= lives[m].startSeq
    {
      assert s.chain[i + 1 - off] == Epoch(lives[i + 1].epoch, lives[i + 1].startSeq);
      assert s.chain[m - off] == Epoch(lives[off + (m - off)].epoch, lives[off + (m - off)].startSeq);
    }
  }

  /**
   * A cursor for a client of process `i`: within today's history, everything up to there is still what that history says,
   * no later process gave out a number at or below it, and what memory holds there is what the client applied, but for
   * records that damage made up.
   */
  ghost predicate CursorIsSafe(w: World, i: nat, c: nat)
    requires i < |w.lives| && w.machine.Running?
  {
    && c <= |Hist(w.lives)| && c <= |w.lives[i].hist| && Hist(w.lives)[..c] == w.lives[i].hist[..c]
    && (forall k | i < k < |w.lives| :: GaveOnlyPast(w.lives[k], c))
    && (forall e | e in w.machine.store.mem.entries && e.seqNo <= c :: e in w.madeUp || Is(w.lives[i].hist, e))
  }

  /**
   * Rewinding is sound in every run: for a client that applied history up to `afterSeq` under any process still in
   * the chain, the cursor it may keep is within today's history, everything it applied up to there is still what
   * that history says, no later process gave out a number at or below it, and what memory holds there is what the client
   * applied, but for records that damage made up.
   */
  lemma RewindIsSound(cfg: Config, w0: World, steps: seq<Step>, w: World, i: nat, afterSeq: nat)
    requires Initial(cfg, w0) && IsRun(cfg, w0, steps, w) && w.machine.Running? && i < |w.lives|
    requires |w.lives| - |w.machine.store.chain| <= i && afterSeq <= |w.lives[i].hist|
    ensures
      var c := Resume(w.machine.store, w.lives[i].epoch, afterSeq);
      CursorIsSafe(w, i, c)
  {
    hide WorldInv, Initial, IsRun, Resume;
    InitialInv(cfg, w0);
    RunKeepsInv(cfg, w0, steps, w);
    RewindIsSoundNow(cfg, w, i, afterSeq);
  }

  lemma RewindIsSoundNow(cfg: Config, w: World, i: nat, afterSeq: nat)
    requires WorldInv(cfg, w) && w.machine.Running? && i < |w.lives|
    requires |w.lives| - |w.machine.store.chain| <= i && afterSeq <= |w.lives[i].hist|
    ensures
      var c := Resume(w.machine.store, w.lives[i].epoch, afterSeq);
      CursorIsSafe(w, i, c)
  {
    hide RunningOk, Resume, Distinct, Forks;
    var c := Resume(w.machine.store, w.lives[i].epoch, afterSeq);
    ResumeIsCut(cfg, w, i, afterSeq);
    SharedHistory(w.lives, i, |w.lives| - 1, c);
    LaterAbove(w.lives, i, c);
    MemoryIsHistory(cfg, w.machine.store, w.lives, w.madeUp, w.lives[i].hist, c);
  }

  lemma LaterAbove(lives: seq<Life>, i: nat, c: nat)
    requires Forks(lives) && forall k | i < k < |lives| :: c <= lives[k].startSeq
    ensures forall k | i < k < |lives| :: GaveOnlyPast(lives[k], c)
  {
  }

  lemma MemoryIsHistory(cfg: Config, s: Store, lives: seq<Life>, madeUp: set<Entry>, hist: seq<Option<Entry>>, c: nat)
    requires RunningOk(cfg, s, lives, madeUp) && c <= |Hist(lives)| && c <= |hist| && Hist(lives)[..c] == hist[..c]
    ensures forall e | e in s.mem.entries && e.seqNo <= c :: e in madeUp || Is(hist, e)
  {
    hide RunningOk, Is, Hist;
    MemoryIsKnown(cfg, s, lives, madeUp);
    forall e | e in s.mem.entries && e.seqNo <= c
      ensures e in madeUp || Is(hist, e)
    {
      if e !in madeUp {
        SameBelow(Hist(lives), hist, c, e);
      }
    }
  }

  lemma MemoryIsKnown(cfg: Config, s: Store, lives: seq<Life>, madeUp: set<Entry>)
    requires RunningOk(cfg, s, lives, madeUp)
    ensures forall e | e in s.mem.entries :: e in madeUp || Is(Hist(lives), e)
  {
    hide Is, Known, View, ChainMatches, IndexMatches;
    ViewWithin(Known(cfg, s), s.mem.lowWater, s.dropped);
  }

  lemma SameBelow(a: seq<Option<Entry>>, b: seq<Option<Entry>>, c: nat, e: Entry)
    requires c <= |a| && c <= |b| && a[..c] == b[..c] && Is(a, e) && e.seqNo <= c
    ensures Is(b, e)
  {
    assert a[..c][e.seqNo - 1] == b[..c][e.seqNo - 1];
  }

  // ---- how far back the chain reaches -------------------------------------------------------------------------

  /** The chain a world's journal has, in memory or on disk. */
  function ChainIn(w: World): seq<Epoch> {
    match w.machine case Running(s) => s.chain case Stopped(d) => ChainOf(d.idx)
  }

  lemma OpenLengthens(cfg: Config, w: World, epoch: string)
    requires WorldInv(cfg, w) && Allowed(cfg, w, Open(epoch))
    ensures |ChainIn(Next(cfg, w, Open(epoch)))| == Min(|ChainIn(w)| + 1, 16)
  {
    hide ReadLog, Forks, PartOf;
    var d := w.machine.disk;
    NewEpochUnknown(d.idx, w.lives, epoch);
    OpenEstablishesInv(cfg, d, epoch);
    ChainCoversRestart(d.idx, epoch, RecoveredMem(cfg, d).lastSeq);
  }

  lemma OthersKeepChain(cfg: Config, w: World, step: Step)
    requires WorldInv(cfg, w) && Allowed(cfg, w, step) && !step.Open? && !step.LoseSidecar?
    ensures ChainIn(Next(cfg, w, step)) == ChainIn(w)
    ensures |Next(cfg, w, step).lives| == |w.lives|
  {
    hide ReadLog, Forks, PartOf, Appended, Compacted, DiskMatches, Known, Removed, Expired;
    match step
    case Append(event, ts) =>
    case _ =>
  }

  /** `n` processes at the end are all in the chain, up to sixteen. */
  lemma {:induction false} ChainReaches(cfg: Config, w: World, steps: seq<Step>, end: World, n: nat)
    requires WorldInv(cfg, w) && IsRun(cfg, w, steps, end) && forall step | step in steps :: !step.LoseSidecar?
    requires |ChainIn(w)| >= Min(n, 16)
    ensures WorldInv(cfg, end) && |end.lives| >= |w.lives|
    ensures |ChainIn(end)| >= Min(n + |end.lives| - |w.lives|, 16)
    decreases |steps|
  {
    hide WorldInv, Next, Allowed;
    if steps != [] {
      var step := steps[0];
      assert step in steps && forall other | other in steps[1..] :: other in steps;
      StepKeepsInv(cfg, w, step);
      var next := Next(cfg, w, step);
      if step.Open? {
        OpenLengthens(cfg, w, step.epoch);
        OpenAddsOne(cfg, w, step.epoch);
        ChainReaches(cfg, next, steps[1..], end, n + 1);
      } else {
        OthersKeepChain(cfg, w, step);
        ChainReaches(cfg, next, steps[1..], end, n);
      }
    }
  }

  lemma OpenAddsOne(cfg: Config, w: World, epoch: string)
    requires Allowed(cfg, w, Open(epoch))
    ensures |Next(cfg, w, Open(epoch)).lives| == |w.lives| + 1
  {
    hide Recovered;
  }

  lemma InitialChain(cfg: Config, w: World)
    requires Initial(cfg, w)
    ensures |ChainIn(w)| == |w.lives|
  {
    hide ReadLog;
    var d := w.machine.disk;
    if !(d == Disk([], None) && w.lives == []) {
      var hist, i: Index :| IsLegacy(cfg, w, hist, i);
    }
  }

  /**
   * How far back rewinding reaches: to each of the last sixteen processes, as long as the sidecar was not lost since it
   * began. A client of any of them is sent back exactly to where the next process started when it is ahead of that, and
   * with the cursor it then has it is as safe as can be.
   */
  lemma RewindReachesBack(
      cfg: Config, w0: World, before: seq<Step>, mid: World, after: seq<Step>, w: World, i: nat, afterSeq: nat)
    requires Initial(cfg, w0) && IsRun(cfg, w0, before, mid) && IsRun(cfg, mid, after, w) && w.machine.Running?
    requires forall step | step in after :: !step.LoseSidecar?
    requires |w.lives| - 16 <= i < |w.lives| && (before == [] || |mid.lives| <= i) && afterSeq <= |w.lives[i].hist|
    ensures Rewind(w.machine.store, Some(w.lives[i].epoch), afterSeq)
         == if i < |w.lives| - 1 && w.lives[i + 1].startSeq < afterSeq then Some(w.lives[i + 1].startSeq) else None
    ensures CursorIsSafe(w, i, Resume(w.machine.store, w.lives[i].epoch, afterSeq))
  {
    hide WorldInv, Initial, IsRun, CursorIsSafe;
    InitialInv(cfg, w0);
    RunKeepsInv(cfg, w0, before, mid);
    if before == [] {
      SameWorld(cfg, w0, mid);
      InitialChain(cfg, w0);
      ChainReaches(cfg, mid, after, w, |mid.lives|);
    } else {
      ChainReaches(cfg, mid, after, w, 0);
    }
    RewindIsCut(cfg, w, i, afterSeq);
    RewindIsSoundNow(cfg, w, i, afterSeq);
  }

  lemma SameWorld(cfg: Config, w: World, end: World)
    requires IsRun(cfg, w, [], end)
    ensures w == end
  {
  }

  /** The chain always covers the current process and, while the sidecar survives, up to fifteen before it. */
  lemma ChainCoversRestart(idx: Option<Index>, epoch: string, n: nat)
    requires ChainOf(idx) == [] || ChainOf(idx)[|ChainOf(idx)| - 1].name != epoch
    ensures |RecordEpoch(idx, epoch, n)| == Min(|ChainOf(idx)| + 1, MAX_EPOCH_HISTORY)
    ensures RecordEpoch(idx, epoch, n)[|RecordEpoch(idx, epoch, n)| - 1] == Epoch(epoch, n)
  {
  }
}
