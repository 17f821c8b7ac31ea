/**
 * The durable journal of one thread (`daemon/diskJournal.ts`): a write-behind log beside a sidecar record, rewrites
 * after eviction and compaction, recovery from whatever the last process left, and the chain of process epochs that
 * tells a returning client where history really resumed.
 *
 * `Store` is one open journal together with its disk, as a value with one function per operation; class
 * `DiskJournal` is the object, each of its methods proved to compute that function.
 */
module DiskJournals {
  import opened Common
  import opened Wire
  import opened LogParser
  import opened MemoryJournal

  const MAX_EPOCH_HISTORY: nat := 16

  /** A process that wrote to the journal, and the number the journal held when it opened it. */
  datatype Epoch = Epoch(name: string, startSeq: nat)

  /** The sidecar. `epochs` is absent in one written before the chain existed. */
  datatype Index = Index(lowWater: nat, lastSeq: nat, ackedSeq: nat, epoch: string, epochs: Option<seq<Epoch>>)

  /** A missing log reads like an empty one; a missing or unreadable sidecar is `None`. */
  datatype Disk = Disk(log: bytes, idx: Option<Index>)

  datatype Config = Config(codec: Codec, limits: Limits, isBoundary: WireEvent -> bool)

  /**
   * `mem` serves reads; `buffer` holds the entries not yet written. `dropped` is a history variable no operation
   * reads: the highest floor below which this process has dropped tokens from memory.
   */
  datatype Store = Store(
    mem: Journal, disk: Disk, buffer: seq<Entry>, needsRewrite: bool, fileLowWater: nat, lastIdxLowWater: int,
    chain: seq<Epoch>, epoch: string, closed: bool, dropped: nat)

  // ---- the operations as functions ----------------------------------------------------------------------------

  function IndexOf(s: Store): Index {
    Index(s.mem.lowWater, s.mem.lastSeq, s.mem.ackedSeq, s.epoch, Some(s.chain))
  }

  function IndexWritten(s: Store): Store {
    s.(disk := s.disk.(idx := Some(IndexOf(s))), lastIdxLowWater := s.mem.lowWater)
  }

  function Rewritten(cfg: Config, s: Store): Store {
    var retained := match Replayed(s.mem, s.mem.lowWater) case Entries(es) => es case Resync(_, _) => [];
    s.(disk := s.disk.(log := Serialize(cfg.codec, retained)), needsRewrite := false, fileLowWater := s.mem.lowWater)
  }

  function LinesWritten(cfg: Config, s: Store): Store {
    s.(disk := s.disk.(log := s.disk.log + Serialize(cfg.codec, s.buffer)))
  }

  function Flushed(cfg: Config, s: Store, sync: bool): Store {
    if s.closed then s else
      var w := (if s.needsRewrite then Rewritten(cfg, s) else LinesWritten(cfg, s)).(buffer := []);
      if sync || w.mem.lowWater != w.lastIdxLowWater then IndexWritten(w) else w
  }

  /** The floor an append's bounds check drops tokens below (0 when it drops none). */
  function AppendFloor(l: Limits, j: Journal, event: WireEvent, ts: int): nat {
    var p := Pushed(l, j, NextEntry(j, event, ts));
    if Over(l, |p.entries|, p.bytes) then AckFloor(p.entries, p.ackedSeq, 0) else 0
  }

  /** An append up to the point where it decides whether to flush. */
  function Buffered(cfg: Config, s: Store, event: WireEvent, ts: int): Store {
    var mem := Appended(cfg.limits, s.mem, event, ts);
    s.(mem := mem,
       buffer := s.buffer + [NextEntry(s.mem, event, ts)],
       needsRewrite := s.needsRewrite || mem.lowWater > s.fileLowWater,
       dropped := Max(s.dropped, AppendFloor(cfg.limits, s.mem, event, ts)))
  }

  function AppendedTo(cfg: Config, s: Store, event: WireEvent, ts: int): Store {
    if s.closed then s else
      var b := Buffered(cfg, s, event, ts);
      if cfg.isBoundary(event) || b.needsRewrite then Flushed(cfg, b, true) else b
  }

  function AckedBy(s: Store, seqNo: int): Store {
    var a := s.(mem := Acked(s.mem, seqNo));
    if a.mem.ackedSeq != s.mem.ackedSeq then IndexWritten(a) else a
  }

  function CompactedTo(cfg: Config, s: Store, now: int): Store {
    var mem := Compacted(cfg.limits, s.mem, now);
    var c := s.(mem := mem,
                dropped := Max(s.dropped, AckFloor(Expired(cfg.limits, s.mem, now).entries, s.mem.ackedSeq, 0)));
    if Removed(cfg.limits, s.mem, now) > 0 || mem.lowWater > s.fileLowWater
    then Flushed(cfg, c.(needsRewrite := true), true) else c
  }

  /** The chain a sidecar stands for before this process is added to it. */
  function ChainOf(idx: Option<Index>): seq<Epoch> {
    match idx
    case None => []
    case Some(i) => if i.epochs.Some? && i.epochs.value != [] then i.epochs.value else [Epoch(i.epoch, 0)]
  }

  function LastN<T>(s: seq<T>, n: nat): (r: seq<T>)
    ensures |r| <= n
  {
    if |s| <= n then s else s[|s| - n..]
  }

  function RecordEpoch(idx: Option<Index>, epoch: string, recoveredSeq: nat): seq<Epoch> {
    var chain := ChainOf(idx);
    var extended :=
      if chain != [] && chain[|chain| - 1].name == epoch then chain else chain + [Epoch(epoch, recoveredSeq)];
    LastN(extended, MAX_EPOCH_HISTORY)
  }

  predicate KnowsEpoch(idx: Option<Index>, epoch: string) {
    && idx.Some? && idx.value.epochs.Some? && idx.value.epochs.value != []
    && idx.value.epochs.value[|idx.value.epochs.value| - 1].name == epoch
  }

  predicate AnyAtOrBelow(es: seq<Entry>, lowWater: nat) {
    exists e | e in es :: e.seqNo <= lowWater
  }

  function LowWaterOf(idx: Option<Index>): nat {
    if idx.Some? then idx.value.lowWater else 0
  }

  /** What recovery restores memory to. */
  function RecoveredMem(cfg: Config, disk: Disk): Journal {
    var es := ReadLog(cfg.codec, disk.log).entries;
    var lastSeq := Max(if disk.idx.Some? then disk.idx.value.lastSeq else 0, LastSeq(es));
    Restored(cfg.limits, es, lastSeq, LowWaterOf(disk.idx), if disk.idx.Some? then disk.idx.value.ackedSeq else 0)
  }

  /** Recovery up to the final flush: the tail is truncated, memory restored, the epoch chain persisted. */
  function Reopened(cfg: Config, disk: Disk, epoch: string): Store
    requires ReadLog(cfg.codec, disk.log).validBytes <= |disk.log|
  {
    var p := ReadLog(cfg.codec, disk.log);
    var mem := RecoveredMem(cfg, disk);
    var low := LowWaterOf(disk.idx);
    var s := Store(mem, Disk(disk.log[..p.validBytes], disk.idx), [], p.skipped > 0,
                   if p.skipped > 0 then 0 else low, -1,
                   RecordEpoch(disk.idx, epoch, mem.lastSeq), epoch, false, 0);
    var t := if KnowsEpoch(disk.idx, epoch) then s else IndexWritten(s);
    if AnyAtOrBelow(p.entries, low) then t.(fileLowWater := 0, needsRewrite := true) else t
  }

  function Recovered(cfg: Config, disk: Disk, epoch: string): Store
    requires ReadLog(cfg.codec, disk.log).validBytes <= |disk.log|
  {
    var t := Reopened(cfg, disk, epoch);
    if ReadLog(cfg.codec, disk.log).skipped > 0 then Flushed(cfg, t, true) else t
  }

  function IndexOfEpoch(chain: seq<Epoch>, name: string): (i: nat)
    ensures i <= |chain|
    ensures i < |chain| ==> chain[i].name == name
    ensures forall k | 0 <= k < i :: chain[k].name != name
  {
    if chain == [] || chain[0].name == name then 0 else 1 + IndexOfEpoch(chain[1..], name)
  }

  /** The cursor a client of an earlier process is sent back to; none when what it saw is all still there. */
  function Rewind(s: Store, clientEpoch: Option<string>, afterSeq: nat): Option<nat> {
    if clientEpoch.None? || clientEpoch.value == "" || clientEpoch.value == s.epoch then None else
      var i := IndexOfEpoch(s.chain, clientEpoch.value);
      if i + 1 >= |s.chain| then None
      else if afterSeq > s.chain[i + 1].startSeq then Some(s.chain[i + 1].startSeq) else None
  }

  // ---- filtering by number and by floor -----------------------------------------------------------------------

  /** The entries of a log that memory serves: above the low-water mark, without the tokens below a floor. */
  function View(log: seq<Entry>, lowWater: nat, floor: nat): seq<Entry> {
    DropTokens(Above(log, lowWater), floor)
  }

  lemma {:induction false} AboveAppend(a: seq<Entry>, b: seq<Entry>, after: nat)
    ensures Above(a + b, after) == Above(a, after) + Above(b, after)
  {
    if a == [] {
      assert a + b == b;
    } else {
      assert (a + b)[1..] == a[1..] + b;
      AboveAppend(a[1..], b, after);
    }
  }

  lemma {:induction false} AboveAbove(es: seq<Entry>, m: nat, n: nat)
    requires m <= n
    ensures Above(Above(es, m), n) == Above(es, n)
  {
    if es != [] {
      AboveAbove(es[1..], m, n);
    }
  }

  lemma {:induction false} DropDrop(es: seq<Entry>, f: nat, g: nat)
    ensures DropTokens(DropTokens(es, f), g) == DropTokens(es, Max(f, g))
  {
    if es != [] {
      DropDrop(es[1..], f, g);
    }
  }

  lemma {:induction false} AboveDrop(es: seq<Entry>, after: nat, floor: nat)
    ensures Above(DropTokens(es, floor), after) == DropTokens(Above(es, after), floor)
  {
    if es != [] {
      AboveDrop(es[1..], after, floor);
    }
  }

  lemma {:induction false} AboveAll(es: seq<Entry>, after: nat)
    requires forall e | e in es :: e.seqNo > after
    ensures Above(es, after) == es
  {
    if es != [] {
      AboveAll(es[1..], after);
    }
  }

  lemma {:induction false} AboveNone(es: seq<Entry>, after: nat)
    requires forall e | e in es :: e.seqNo <= after
    ensures Above(es, after) == []
  {
    if es != [] {
      AboveNone(es[1..], after);
    }
  }

  /** A suffix of increasing entries is what lies above the entry before it. */
  lemma SuffixIsAbove(es: seq<Entry>, n: nat)
    requires Increasing(es) && 0 < n <= |es|
    ensures es[n..] == Above(es, es[n - 1].seqNo)
  {
    hide Above;
    var mark := es[n - 1].seqNo;
    assert es == es[..n] + es[n..];
    AboveAppend(es[..n], es[n..], mark);
    SuffixIncreasing(es, n);
    AboveAll(es[n..], mark);
    PrefixIsBelow(es, n);
    AboveNone(es[..n], mark);
  }

  lemma PrefixIsBelow(es: seq<Entry>, n: nat)
    requires Increasing(es) && 0 < n <= |es|
    ensures forall e | e in es[..n] :: e.seqNo <= es[n - 1].seqNo
  {
    forall e | e in es[..n]
      ensures e.seqNo <= es[n - 1].seqNo
    {
      var i :| 0 <= i < n && es[..n][i] == e;
    }
  }

  // ---- memory is a view of the log ----------------------------------------------------------------------------

  lemma ViewEvicted(l: Limits, log: seq<Entry>, j: Journal, floor: nat, n: nat)
    requires Valid(l, j) && j.entries == View(log, j.lowWater, floor) && n <= |j.entries|
    ensures Evicted(l, j, n).entries == View(log, Evicted(l, j, n).lowWater, floor)
  {
    if n > 0 {
      var low := j.entries[n - 1].seqNo;
      assert j.entries[n - 1] in j.entries;
      SuffixIsAbove(j.entries, n);
      AboveDrop(Above(log, j.lowWater), low, floor);
      AboveAbove(log, j.lowWater, low);
    }
  }

  lemma ViewWithoutTokens(l: Limits, log: seq<Entry>, j: Journal, floor: nat)
    requires j.entries == View(log, j.lowWater, floor)
    ensures WithoutAckedTokens(l, j).entries == View(log, j.lowWater, Max(floor, AckFloor(j.entries, j.ackedSeq, 0)))
  {
    DropDrop(Above(log, j.lowWater), floor, AckFloor(j.entries, j.ackedSeq, 0));
  }

  /** `floor` is harmless for `j`: evicted already, or the number of a finisher still held. */
  ghost predicate Harmless(j: Journal, floor: nat) {
    || floor <= j.lowWater
    || (floor <= j.lastSeq && exists e | e in j.entries :: e.seqNo == floor && IsFinisher(e))
  }

  lemma HarmlessEvicted(l: Limits, j: Journal, floor: nat, n: nat)
    requires Valid(l, j) && Harmless(j, floor) && n <= |j.entries|
    ensures Harmless(Evicted(l, j, n), floor)
  {
    if n > 0 && floor > j.lowWater {
      var f :| f in j.entries && f.seqNo == floor && IsFinisher(f);
      var i :| 0 <= i < |j.entries| && j.entries[i] == f;
      if i < n {
        assert i < n - 1 ==> j.entries[i].seqNo < j.entries[n - 1].seqNo;
      } else {
        assert j.entries[n..][i - n] == f;
      }
    }
  }

  lemma HarmlessWithoutTokens(l: Limits, j: Journal, floor: nat)
    requires Valid(l, j) && Harmless(j, floor)
    ensures
      var k := WithoutAckedTokens(l, j);
      Harmless(k, floor) && Harmless(k, Max(floor, AckFloor(j.entries, j.ackedSeq, 0)))
  {
    AckFloorIsFinisher(j.entries, j.ackedSeq, 0);
    DropTokensKeeps(j.entries, AckFloor(j.entries, j.ackedSeq, 0));
  }

  /** Enforcing the bounds leaves memory a view of the same log, at a higher mark and floor. */
  lemma ViewBounded(l: Limits, log: seq<Entry>, j: Journal, floor: nat, compactFirst: bool)
    requires Valid(l, j) && j.entries == View(log, j.lowWater, floor) && Harmless(j, floor)
    ensures
      var k := Bounded(l, j, compactFirst);
      var floor' := if compactFirst && Over(l, |j.entries|, j.bytes)
                    then Max(floor, AckFloor(j.entries, j.ackedSeq, 0)) else floor;
      k.entries == View(log, k.lowWater, floor') && Harmless(k, floor')
  {
    if Over(l, |j.entries|, j.bytes) {
      var k := if compactFirst then WithoutAckedTokens(l, j) else j;
      var floor' := if compactFirst then Max(floor, AckFloor(j.entries, j.ackedSeq, 0)) else floor;
      WithoutAckedTokensValid(l, j);
      ViewWithoutTokens(l, log, j, floor);
      HarmlessWithoutTokens(l, j, floor);
      var n := EvictCount(l, k.entries, k.bytes);
      ViewEvicted(l, log, k, floor', n);
      HarmlessEvicted(l, k, floor', n);
    }
  }

  lemma ViewPushed(l: Limits, log: seq<Entry>, j: Journal, floor: nat, e: Entry)
    requires Valid(l, j) && j.entries == View(log, j.lowWater, floor) && Harmless(j, floor)
    requires e.seqNo == j.lastSeq + 1
    ensures Pushed(l, j, e).entries == View(log + [e], j.lowWater, floor) && Harmless(Pushed(l, j, e), floor)
  {
    AboveAppend(log, [e], j.lowWater);
    assert [e][1..] == [];
    assert Above([e], j.lowWater) == [e] && DropTokens([e], floor) == [e];
    DropTokensAppend(Above(log, j.lowWater), [e], floor);
    if floor > j.lowWater {
      var f :| f in j.entries && f.seqNo == floor && IsFinisher(f);
      assert f in Pushed(l, j, e).entries;
    }
  }

  /** A harmless floor never shows in a checkpoint folded from the view. */
  lemma ViewFolds(l: Limits, log: seq<Entry>, j: Journal, floor: nat)
    requires Increasing(log) && j.entries == View(log, j.lowWater, floor) && Harmless(j, floor)
    ensures FoldAll(l.checkpointMessages, EMPTY_CHECKPOINT, j.entries)
         == FoldAll(l.checkpointMessages, EMPTY_CHECKPOINT, Above(log, j.lowWater))
  {
    var es := Above(log, j.lowWater);
    AboveKeeps(log, j.lowWater);
    DropTokensKeeps(es, floor);
    assert SafeFloor(es, floor);
    CompactionInvisible(l.checkpointMessages, EMPTY_CHECKPOINT, es, floor);
  }

  // ---- the object ---------------------------------------------------------------------------------------------

  /** One open journal. The disk it writes to is a field; live subscribers are modelled with the connections. */
  class DiskJournal {
    const cfg: Config
    const epoch: string
    const inner: InMemoryJournal
    var disk: Disk
    var buffer: seq<Entry>
    var needsRewrite: bool
    var fileLowWater: nat
    var lastIdxLowWater: int
    var chain: seq<Epoch>
    var closed: bool
    ghost var dropped: nat

    ghost predicate Wired()
      reads this
    {
      inner.limits == cfg.limits
    }

    ghost function Value(): Store
      reads this, inner
    {
      Store(inner.Value(), disk, buffer, needsRewrite, fileLowWater, lastIdxLowWater, chain, epoch, closed, dropped)
    }

    /** Open the journal on whatever the disk holds, and recover it. */
    constructor Open(cfg: Config, disk: Disk, epoch: string)
      ensures Wired() && fresh(inner) && this.cfg == cfg && this.epoch == epoch
      ensures ReadLog(cfg.codec, disk.log).validBytes <= |disk.log|
      ensures Value() == Recovered(cfg, disk, epoch)
    {
      TruncateIsIdempotent(cfg.codec, disk.log);
      this.cfg, this.epoch, this.disk := cfg, epoch, disk;
      inner := new InMemoryJournal(cfg.limits);
      buffer, needsRewrite, fileLowWater, lastIdxLowWater := [], false, 0, -1;
      chain, closed, dropped := [], false, 0;
      new;
      Recover();
    }

    method Recover()
      requires Wired() && inner.Value() == FRESH && buffer == [] && !needsRewrite && !closed && dropped == 0
      requires lastIdxLowWater == -1
      modifies this, inner
      ensures Wired() && ReadLog(cfg.codec, old(disk).log).validBytes <= |old(disk).log|
      ensures Value() == Recovered(cfg, old(disk), epoch)
    {
      hide ReadLog, Restored, RecordEpoch, Flushed;
      var idx := disk.idx;
      var entries, validBytes, skipped := ReadEntries(cfg.codec, disk.log);
      TruncateIsIdempotent(cfg.codec, disk.log);
      disk := disk.(log := disk.log[..validBytes]);
      var tail := if |entries| > 0 then entries[|entries| - 1].seqNo else 0;
      var low := if idx.Some? then idx.value.lowWater else 0;
      var indexed := if idx.Some? then idx.value.lastSeq else 0;
      inner.Restore(entries, Max(indexed, tail), low, if idx.Some? then idx.value.ackedSeq else 0);
      fileLowWater := low;
      if skipped > 0 {
        fileLowWater := 0;
        needsRewrite := true;
      }
      chain := RecordEpoch(idx, epoch, inner.lastSeq);
      if !KnowsEpoch(idx, epoch) {
        WriteIdx();
      }
      if AnyAtOrBelow(entries, low) {
        fileLowWater := 0;
        needsRewrite := true;
      }
      assert Value() == Reopened(cfg, old(disk), epoch);
      if skipped > 0 {
        Flush(true);
      }
    }

    method WriteIdx()
      modifies this`disk, this`lastIdxLowWater
      ensures Value() == IndexWritten(old(Value()))
    {
      disk := disk.(idx := Some(Index(inner.lowWater, inner.lastSeq, inner.ackedSeq, epoch, Some(chain))));
      lastIdxLowWater := inner.lowWater;
    }

    /** The whole file is written anew from memory. */
    method Rewrite()
      modifies this`disk, this`needsRewrite, this`fileLowWater
      ensures Value() == Rewritten(cfg, old(Value()))
    {
      var retained := inner.ReplayAfter(inner.lowWater);
      var entries := if retained.Entries? then retained.entries else [];
      disk := disk.(log := Serialize(cfg.codec, entries));
      needsRewrite := false;
      fileLowWater := inner.lowWater;
    }

    method Flush(sync: bool)
      modifies this`disk, this`needsRewrite, this`fileLowWater, this`buffer, this`lastIdxLowWater
      ensures Value() == Flushed(cfg, old(Value()), sync)
    {
      if closed {
        return;
      }
      if needsRewrite {
        Rewrite();
      } else {
        disk := disk.(log := disk.log + Serialize(cfg.codec, buffer));
      }
      buffer := [];
      if sync || inner.lowWater != lastIdxLowWater {
        WriteIdx();
      }
    }

    /** The original throws on a closed journal; here nothing is appended and there is no entry. */
    method Append(event: WireEvent, ts: int) returns (entry: Option<Entry>)
      requires Wired()
      modifies this, inner
      ensures Wired() && Value() == AppendedTo(cfg, old(Value()), event, ts)
      ensures entry == if old(closed) then None else Some(old(NextEntry(inner.Value(), event, ts)))
    {
      if closed {
        return None;
      }
      dropped := Max(dropped, AppendFloor(cfg.limits, inner.Value(), event, ts));
      var e := inner.Append(event, ts);
      buffer := buffer + [e];
      if inner.lowWater > fileLowWater {
        needsRewrite := true;
      }
      assert Value() == Buffered(cfg, old(Value()), event, ts);
      if cfg.isBoundary(event) || needsRewrite {
        Flush(true);
      }
      entry := Some(e);
    }

    method Ack(seqNo: int)
      modifies this`disk, this`lastIdxLowWater, inner
      ensures Value() == AckedBy(old(Value()), seqNo)
    {
      var before := inner.ackedSeq;
      inner.Ack(seqNo);
      if inner.ackedSeq != before {
        WriteIdx();
      }
    }

    method Compact(now: int) returns (removed: int)
      requires Wired()
      modifies this, inner
      ensures Wired() && Value() == CompactedTo(cfg, old(Value()), now)
      ensures removed == Removed(cfg.limits, old(inner.Value()), now)
    {
      dropped := Max(dropped, AckFloor(Expired(cfg.limits, inner.Value(), now).entries, inner.ackedSeq, 0));
      removed := inner.Compact(now);
      if removed > 0 || inner.lowWater > fileLowWater {
        needsRewrite := true;
        Flush(true);
      }
    }

    method RewindFor(clientEpoch: Option<string>, afterSeq: nat) returns (r: Option<nat>)
      ensures r == Rewind(Value(), clientEpoch, afterSeq)
    {
      if clientEpoch.None? || clientEpoch.value == "" || clientEpoch.value == epoch {
        return None;
      }
      var i := 0;
      while i < |chain| && chain[i].name != clientEpoch.value
        invariant 0 <= i <= |chain|
        invariant IndexOfEpoch(chain, clientEpoch.value) == i + IndexOfEpoch(chain[i..], clientEpoch.value)
      {
        assert chain[i..][1..] == chain[i + 1..];
        i := i + 1;
      }
      if i + 1 >= |chain| {
        return None;
      }
      var resumedAt := chain[i + 1].startSeq;
      r := if afterSeq > resumedAt then Some(resumedAt) else None;
    }

    method Close()
      modifies this
      ensures Value() == (if old(closed) then old(Value()) else Flushed(cfg, old(Value()), true).(closed := true))
    {
      if closed {
        return;
      }
      Flush(true);
      closed := true;
    }
  }
}
