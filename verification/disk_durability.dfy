/**
 * What the durable journal promises about the disk (`daemon/diskJournal.ts`): memory is always a view of the log and
 * the buffer, a flush followed by a crash loses nothing, a crash at any byte of a write loses only the tail, and the
 * one case in which disk and memory drift apart.
 */
module DiskDurability {
  import opened Common
  import opened Wire
  import opened LogParser
  import opened MemoryJournal
  import opened DiskJournals

  function Logged(cfg: Config, s: Store): seq<Entry> {
    ReadLog(cfg.codec, s.disk.log).entries
  }

  /** Every entry this process knows of: those in the file, then those not yet written. */
  function Known(cfg: Config, s: Store): seq<Entry> {
    Logged(cfg, s) + s.buffer
  }

  /** The file is undamaged, and memory is what it holds, with the buffer, above the mark and the token floor. */
  ghost predicate DiskMatches(cfg: Config, s: Store) {
    && Valid(cfg.limits, s.mem)
    && Clean(cfg.codec, s.disk.log, Logged(cfg, s))
    && Increasing(Known(cfg, s))
    && (forall e | e in Known(cfg, s) :: e.seqNo <= s.mem.lastSeq)
    && s.mem.entries == View(Known(cfg, s), s.mem.lowWater, s.dropped)
    && Harmless(s.mem, s.dropped)
  }

  ghost predicate IndexMatches(s: Store) {
    && s.disk.idx.Some?
    && s.disk.idx.value == IndexOf(s).(lastSeq := s.disk.idx.value.lastSeq)
    && s.disk.idx.value.lastSeq <= s.mem.lastSeq
    && s.lastIdxLowWater == s.mem.lowWater
    && s.fileLowWater <= s.mem.lowWater
    && (!s.needsRewrite ==> s.fileLowWater == s.mem.lowWater)
  }

  /** What holds between public calls, from the first open on, whatever the disk held. */
  ghost predicate Inv(cfg: Config, s: Store) {
    cfg.codec.Valid() && !s.closed && DiskMatches(cfg, s) && IndexMatches(s)
  }

  /** Disk and memory agree: exactly the entries above the low-water mark are served. */
  ghost predicate Agrees(cfg: Config, s: Store) {
    s.mem.entries == Above(Known(cfg, s), s.mem.lowWater)
  }

  // ---- one flush ----------------------------------------------------------------------------------------------

  lemma RetainedIsAll(l: Limits, j: Journal)
    requires Valid(l, j)
    ensures Replayed(j, j.lowWater) == Entries(j.entries)
  {
    AboveAll(j.entries, j.lowWater);
  }

  /** A rewrite makes the file exactly what memory retains. */
  lemma RewrittenMatches(cfg: Config, s: Store)
    requires cfg.codec.Valid() && Valid(cfg.limits, s.mem) && Harmless(s.mem, s.dropped)
    requires DropTokens(s.mem.entries, s.dropped) == s.mem.entries
    ensures
      var t := Rewritten(cfg, s).(buffer := []);
      DiskMatches(cfg, t) && Agrees(cfg, t) && Logged(cfg, t) == s.mem.entries
  {
    RetainedIsAll(cfg.limits, s.mem);
    RoundTrip(cfg.codec, s.mem.entries);
    var t := Rewritten(cfg, s).(buffer := []);
    assert Known(cfg, t) == s.mem.entries;
    AboveAll(s.mem.entries, s.mem.lowWater);
  }

  lemma ViewHasNoTokens(log: seq<Entry>, lowWater: nat, floor: nat)
    ensures DropTokens(View(log, lowWater, floor), floor) == View(log, lowWater, floor)
  {
    DropDrop(Above(log, lowWater), floor, floor);
  }

  /** Writing the buffered lines moves entries from the buffer to the file and nothing else. */
  lemma LinesWrittenMatches(cfg: Config, s: Store)
    requires cfg.codec.Valid() && DiskMatches(cfg, s)
    ensures
      var t := LinesWritten(cfg, s).(buffer := []);
      DiskMatches(cfg, t) && Known(cfg, t) == Known(cfg, s) && Logged(cfg, t) == Known(cfg, s)
  {
    IncreasingSplit(Logged(cfg, s), s.buffer);
    CleanAppend(cfg.codec, s.disk.log, Logged(cfg, s), s.buffer);
    var t := LinesWritten(cfg, s).(buffer := []);
    assert Known(cfg, t) == Known(cfg, s);
  }

  /** A flush leaves the same memory, an empty buffer, no rewrite owed, and the same view. */
  lemma FlushedMatches(cfg: Config, s: Store, sync: bool)
    requires cfg.codec.Valid() && !s.closed && DiskMatches(cfg, s)
    ensures
      var t := Flushed(cfg, s, sync);
      && DiskMatches(cfg, t) && t.mem == s.mem && t.buffer == [] && !t.needsRewrite
      && (Agrees(cfg, s) || s.needsRewrite ==> Agrees(cfg, t))
      && (!s.needsRewrite ==> Known(cfg, t) == Known(cfg, s))
  {
    if s.needsRewrite {
      ViewHasNoTokens(Known(cfg, s), s.mem.lowWater, s.dropped);
      RewrittenMatches(cfg, s);
    } else {
      LinesWrittenMatches(cfg, s);
    }
  }

  /**
   * What a flush writes: the buffered lines behind the file, or what is retained in its place when a rewrite is owed; the
   * sidecar only when told to sync. Nothing waits after it.
   */
  lemma FlushWrites(cfg: Config, s: Store, sync: bool)
    requires Inv(cfg, s)
    ensures
      var t := Flushed(cfg, s, sync);
      && t.mem == s.mem && t.buffer == [] && !t.needsRewrite
      && t.disk.log == (if s.needsRewrite then Serialize(cfg.codec, s.mem.entries)
                        else s.disk.log + Serialize(cfg.codec, s.buffer))
      && t.disk.idx == if sync
                       then Some(Index(s.mem.lowWater, s.mem.lastSeq, s.mem.ackedSeq, s.epoch, Some(s.chain)))
                       else s.disk.idx
  {
    hide DiskMatches, Serialize;
    if s.needsRewrite {
      RetainedIsAll(cfg.limits, s.mem) by { MemoryIsValid(cfg, s); }
    }
  }

  lemma MemoryIsValid(cfg: Config, s: Store)
    requires Inv(cfg, s)
    ensures Valid(cfg.limits, s.mem)
  {
  }

  lemma FlushKeepsInv(cfg: Config, s: Store, sync: bool)
    requires Inv(cfg, s)
    ensures Inv(cfg, Flushed(cfg, s, sync))
  {
    FlushedMatches(cfg, s, sync);
  }

  // ---- append -------------------------------------------------------------------------------------------------

  lemma BufferedMatches(cfg: Config, s: Store, event: WireEvent, ts: int)
    requires DiskMatches(cfg, s)
    ensures DiskMatches(cfg, Buffered(cfg, s, event, ts))
  {
    var l, e := cfg.limits, NextEntry(s.mem, event, ts);
    var p := Pushed(l, s.mem, e);
    var known := Known(cfg, s) + [e];
    var t := Buffered(cfg, s, event, ts);
    Associate(Logged(cfg, s), s.buffer, [e]);
    AppendedValid(l, s.mem, event, ts);
    PushedValid(l, s.mem, event, ts);
    ViewPushed(l, Known(cfg, s), s.mem, s.dropped, e);
    ViewBounded(l, known, p, s.dropped, true);
    KnownExtends(Known(cfg, s), s.mem.lastSeq, e);
  }

  lemma KnownExtends(known: seq<Entry>, lastSeq: nat, e: Entry)
    requires Increasing(known) && (forall k | k in known :: k.seqNo <= lastSeq) && e.seqNo == lastSeq + 1
    ensures Increasing(known + [e]) && forall k | k in known + [e] :: k.seqNo <= lastSeq + 1
  {
    assert forall i | 0 <= i < |known| :: known[i] in known;
  }

  lemma AppendKeepsInv(cfg: Config, s: Store, event: WireEvent, ts: int)
    requires Inv(cfg, s)
    ensures Inv(cfg, AppendedTo(cfg, s, event, ts))
  {
    var b := Buffered(cfg, s, event, ts);
    BufferedMatches(cfg, s, event, ts);
    AppendedValid(cfg.limits, s.mem, event, ts);
    if cfg.isBoundary(event) || b.needsRewrite {
      FlushedMatches(cfg, b, true);
    }
  }

  /**
   * The append finds the journal over its bounds, dropping acknowledged tokens alone brings it back within them,
   * and no rewrite is owed already: nothing is evicted, so nothing tells the file to shed those tokens.
   */
  predicate SilentDrop(cfg: Config, s: Store, event: WireEvent, ts: int) {
    var p := Pushed(cfg.limits, s.mem, NextEntry(s.mem, event, ts));
    var w := WithoutAckedTokens(cfg.limits, p);
    && !s.needsRewrite
    && Over(cfg.limits, |p.entries|, p.bytes)
    && |w.entries| < |p.entries|
    && !Over(cfg.limits, |w.entries|, w.bytes)
  }

  lemma {:induction false} DropTokensShorter(es: seq<Entry>, floor: nat)
    ensures |DropTokens(es, floor)| <= |es|
    ensures |DropTokens(es, floor)| == |es| ==> DropTokens(es, floor) == es
  {
    if es != [] {
      DropTokensShorter(es[1..], floor);
    }
  }

  /** An eviction always raises the low-water mark, so it always ends in a rewrite. */
  lemma EvictionRaisesMark(l: Limits, j: Journal, n: nat)
    requires Valid(l, j) && n <= |j.entries|
    ensures n > 0 <==> Evicted(l, j, n).lowWater > j.lowWater
  {
    if n > 0 {
      assert j.entries[n - 1] in j.entries;
    }
  }

  /** Whether this append raises the mark, drops tokens silently, or leaves what is retained alone. */
  lemma AppendCases(cfg: Config, s: Store, event: WireEvent, ts: int)
    requires Valid(cfg.limits, s.mem)
    ensures
      var p := Pushed(cfg.limits, s.mem, NextEntry(s.mem, event, ts));
      var a := Appended(cfg.limits, s.mem, event, ts);
      || a.lowWater > s.mem.lowWater
      || (a.lowWater == s.mem.lowWater && a.entries == p.entries)
      || (a.lowWater == s.mem.lowWater && |a.entries| < |p.entries| && Over(cfg.limits, |p.entries|, p.bytes)
          && a == WithoutAckedTokens(cfg.limits, p) && !Over(cfg.limits, |a.entries|, a.bytes))
  {
    var l := cfg.limits;
    var p := Pushed(l, s.mem, NextEntry(s.mem, event, ts));
    PushedValid(l, s.mem, event, ts);
    if Over(l, |p.entries|, p.bytes) {
      var w := WithoutAckedTokens(l, p);
      WithoutAckedTokensValid(l, p);
      DropTokensShorter(p.entries, AckFloor(p.entries, p.ackedSeq, 0));
      EvictionRaisesMark(l, w, EvictCount(l, w.entries, w.bytes));
    }
  }

  /**
   * Disk and memory agree after an append exactly when it did not drop tokens silently. So the agreement the
   * sidecar comment relies on is not an invariant of the code; `SilentDrop` is the whole failing family.
   */
  lemma AppendAgrees(cfg: Config, s: Store, event: WireEvent, ts: int)
    requires Inv(cfg, s) && Agrees(cfg, s)
    ensures Agrees(cfg, AppendedTo(cfg, s, event, ts)) <==> !SilentDrop(cfg, s, event, ts)
  {
    var l, e := cfg.limits, NextEntry(s.mem, event, ts);
    var p, a := Pushed(l, s.mem, e), Appended(l, s.mem, event, ts);
    var b := Buffered(cfg, s, event, ts);
    AppendCases(cfg, s, event, ts);
    BufferedMatches(cfg, s, event, ts);
    if cfg.isBoundary(event) || b.needsRewrite {
      FlushedMatches(cfg, b, true);
    }
    KnownAfterAppend(cfg, s, event, ts);
  }

  /**
   * The failing family is inhabited: with room for two entries, an acknowledged message makes the token before it
   * droppable, and the next append drops it from memory while the file keeps it.
   */
  lemma SilentDropHappens(codec: Codec) returns (cfg: Config, s: Store, event: WireEvent)
    requires codec.Valid()
    ensures Inv(cfg, s) && Agrees(cfg, s) && SilentDrop(cfg, s, event, 0)
    ensures !Agrees(cfg, AppendedTo(cfg, s, event, 0))
  {
    hide ReadLog, Inv, Agrees, AppendedTo, SilentDrop;
    cfg := Config(codec, Limits(Some(2), None, None, 20, (_: WireEvent) => 1), (_: WireEvent) => false);
    event := Other("note");
    assert ReadLog(codec, []) == Parsed([], 0, 0) by { CleanEmpty(codec); }
    OpenEstablishesInv(cfg, Disk([], None), "a");
    var s0 := Recovered(cfg, Disk([], None), "a");
    assert s0.mem == FRESH;
    QuietAppend(cfg, s0, Token("t"));
    var s1 := AppendedTo(cfg, s0, Token("t"), 0);
    assert s1.mem.entries == [Entry(1, 0, Token("t"))];
    QuietAppend(cfg, s1, Message("m"));
    var s2 := AppendedTo(cfg, s1, Message("m"), 0);
    assert s2.mem.entries == [Entry(1, 0, Token("t")), Entry(2, 0, Message("m"))];
    s := AckedBy(s2, 2);
    AckKeepsInv(cfg, s2, 2);
    SilentExample(cfg, s, event);
    AppendAgrees(cfg, s, event, 0);
  }

  /** An append within the bounds, of an event that is not a boundary. */
  lemma QuietAppend(cfg: Config, s: Store, event: WireEvent)
    requires Inv(cfg, s) && Agrees(cfg, s) && !s.needsRewrite && !cfg.isBoundary(event)
    requires !Over(cfg.limits, |s.mem.entries| + 1, s.mem.bytes + cfg.limits.size(event))
    ensures
      var t := AppendedTo(cfg, s, event, 0);
      Inv(cfg, t) && Agrees(cfg, t) && !t.needsRewrite && t.mem == Pushed(cfg.limits, s.mem, NextEntry(s.mem, event, 0))
  {
    AppendKeepsInv(cfg, s, event, 0);
    AppendAgrees(cfg, s, event, 0);
  }

  lemma SilentExample(cfg: Config, s: Store, event: WireEvent)
    requires cfg.limits.maxEntries == Some(2) && cfg.limits.maxBytes.None? && !s.needsRewrite
    requires s.mem.entries == [Entry(1, 0, Token("t")), Entry(2, 0, Message("m"))]
    requires s.mem.ackedSeq == 2 == s.mem.lastSeq && event == Other("note")
    ensures SilentDrop(cfg, s, event, 0)
  {
    var t, m, n := Entry(1, 0, Token("t")), Entry(2, 0, Message("m")), Entry(3, 0, event);
    var p := Pushed(cfg.limits, s.mem, n);
    assert p.entries == [t, m, n];
    assert p.entries[1..] == [m, n] && [m, n][1..] == [n] && [n][1..] == [];
    assert AckFloor(p.entries, 2, 0) == AckFloor([m, n], 2, 0) == AckFloor([n], 2, 2) == 2;
    assert DropTokens([n], 2) == [n];
    assert DropTokens([m, n], 2) == [m, n];
    assert DropTokens(p.entries, 2) == [m, n];
  }

  lemma KnownAfterAppend(cfg: Config, s: Store, event: WireEvent, ts: int)
    requires Inv(cfg, s) && Agrees(cfg, s)
    ensures
      var b := Buffered(cfg, s, event, ts);
      var p := Pushed(cfg.limits, s.mem, NextEntry(s.mem, event, ts));
      b.mem.lowWater == s.mem.lowWater ==> Above(Known(cfg, b), b.mem.lowWater) == p.entries
  {
    hide ReadLog, Appended, View;
    var e := NextEntry(s.mem, event, ts);
    Associate(Logged(cfg, s), s.buffer, [e]);
    AboveSnoc(Known(cfg, s), e, s.mem.lowWater);
  }

  lemma AboveSnoc(log: seq<Entry>, e: Entry, after: nat)
    requires e.seqNo > after
    ensures Above(log + [e], after) == Above(log, after) + [e]
  {
    AboveAppend(log, [e], after);
    assert [e][1..] == [];
  }

  // ---- ack and compact ----------------------------------------------------------------------------------------

  lemma AckKeepsInv(cfg: Config, s: Store, seqNo: int)
    requires Inv(cfg, s)
    ensures Inv(cfg, AckedBy(s, seqNo)) && (Agrees(cfg, s) ==> Agrees(cfg, AckedBy(s, seqNo)))
  {
    assert Known(cfg, AckedBy(s, seqNo)) == Known(cfg, s);
  }

  lemma ViewExpired(l: Limits, log: seq<Entry>, j: Journal, floor: nat, now: int)
    requires Valid(l, j) && j.entries == View(log, j.lowWater, floor) && Harmless(j, floor)
    ensures
      var x := Expired(l, j, now);
      x.entries == View(log, x.lowWater, floor) && Harmless(x, floor) && x.ackedSeq == j.ackedSeq
  {
    hide View, Harmless;
    var n := if l.maxAgeMs.None? then 0 else ExpiredCount(j.entries, now - l.maxAgeMs.value);
    assert Expired(l, j, now) == Evicted(l, j, n);
    ViewEvicted(l, log, j, floor, n);
    HarmlessEvicted(l, j, floor, n);
  }

  lemma CompactedView(cfg: Config, s: Store, now: int)
    requires DiskMatches(cfg, s)
    ensures
      var k := Compacted(cfg.limits, s.mem, now);
      var floor := Max(s.dropped, AckFloor(Expired(cfg.limits, s.mem, now).entries, s.mem.ackedSeq, 0));
      k.entries == View(Known(cfg, s), k.lowWater, floor) && Harmless(k, floor)
  {
    ViewCompacted(cfg.limits, Known(cfg, s), s.mem, s.dropped, now);
  }

  lemma ViewCompacted(l: Limits, log: seq<Entry>, j: Journal, floor: nat, now: int)
    requires Valid(l, j) && j.entries == View(log, j.lowWater, floor) && Harmless(j, floor)
    ensures
      var k := Compacted(l, j, now);
      var floor' := Max(floor, AckFloor(Expired(l, j, now).entries, j.ackedSeq, 0));
      k.entries == View(log, k.lowWater, floor') && Harmless(k, floor')
  {
    hide View, Valid, Harmless, Bounded, AckFloor;
    var x := Expired(l, j, now);
    ViewExpired(l, log, j, floor, now);
    ExpiredValid(l, j, now);
    ViewWithoutTokens(l, log, x, floor);
    HarmlessWithoutTokens(l, x, floor);
    WithoutAckedTokensValid(l, x);
    ViewBounded(l, log, WithoutAckedTokens(l, x), Max(floor, AckFloor(x.entries, j.ackedSeq, 0)), false);
  }

  /** When compaction reports nothing removed and the mark did not move, it changed nothing. */
  lemma CompactedNothing(l: Limits, j: Journal, now: int)
    requires Valid(l, j) && Removed(l, j, now) <= 0 && Compacted(l, j, now).lowWater <= j.lowWater
    ensures Compacted(l, j, now).entries == j.entries
  {
    var x := Expired(l, j, now);
    var n := if l.maxAgeMs.None? then 0 else ExpiredCount(j.entries, now - l.maxAgeMs.value);
    assert x == Evicted(l, j, n);
    EvictionRaisesMark(l, j, n);
    DropTokensShorter(x.entries, AckFloor(x.entries, x.ackedSeq, 0));
  }

  /** Compaction keeps the invariant, keeps agreement, and restores it whenever it removes anything. */
  lemma CompactKeepsInv(cfg: Config, s: Store, now: int)
    requires Inv(cfg, s)
    ensures Inv(cfg, CompactedTo(cfg, s, now))
    ensures Agrees(cfg, s) || Removed(cfg.limits, s.mem, now) > 0 ==> Agrees(cfg, CompactedTo(cfg, s, now))
  {
    var l := cfg.limits;
    var mem := Compacted(l, s.mem, now);
    var c := s.(mem := mem, dropped := Max(s.dropped, AckFloor(Expired(l, s.mem, now).entries, s.mem.ackedSeq, 0)));
    CompactedValid(l, s.mem, now);
    CompactedFrame(l, s.mem, now);
    CompactedView(cfg, s, now);
    assert Known(cfg, c) == Known(cfg, s);
    if Removed(l, s.mem, now) > 0 || mem.lowWater > s.fileLowWater {
      FlushedMatches(cfg, c.(needsRewrite := true), true);
    } else if mem.lowWater <= s.mem.lowWater {
      CompactedNothing(l, s.mem, now);
    }
  }

  // ---- recovery -----------------------------------------------------------------------------------------------

  lemma ReopenedMatches(cfg: Config, disk: Disk, epoch: string)
    requires cfg.codec.Valid() && ReadLog(cfg.codec, disk.log).validBytes <= |disk.log|
    requires ReadLog(cfg.codec, disk.log).skipped == 0
    ensures DiskMatches(cfg, Reopened(cfg, disk, epoch)) && Agrees(cfg, Reopened(cfg, disk, epoch))
  {
    hide ReadLog, RecordEpoch, Increasing, DiskMatches, Agrees, FoldAll, Above, SizeOf;
    var es := ReadLog(cfg.codec, disk.log).entries;
    TruncateIsIdempotent(cfg.codec, disk.log);
    ReadIncreasing(cfg.codec, disk.log);
    RestoredMatches(cfg, Reopened(cfg, disk, epoch), es,
                    Max(if disk.idx.Some? then disk.idx.value.lastSeq else 0, LastSeq(es)),
                    if disk.idx.Some? then disk.idx.value.ackedSeq else 0);
  }

  /** Memory restored from a clean log matches it. */
  lemma RestoredMatches(cfg: Config, s: Store, es: seq<Entry>, lastSeq: nat, acked: nat)
    requires Clean(cfg.codec, s.disk.log, es) && Increasing(es) && LastSeq(es) <= lastSeq
    requires s.buffer == [] && s.dropped == 0
    requires s.mem == Restored(cfg.limits, es, lastSeq, s.mem.lowWater, acked)
    ensures DiskMatches(cfg, s) && Agrees(cfg, s)
  {
    hide ReadLog, Restored, Increasing, Valid, View, Harmless;
    MemRestored(cfg.limits, es, lastSeq, s.mem.lowWater, acked);
    assert es + [] == es;
    assert Known(cfg, s) == es;
  }

  lemma MemRestored(l: Limits, es: seq<Entry>, lastSeq: nat, lowWater: nat, acked: nat)
    requires Increasing(es) && LastSeq(es) <= lastSeq
    ensures
      var r := Restored(l, es, lastSeq, lowWater, acked);
      && Valid(l, r) && Harmless(r, 0) && r.entries == View(es, lowWater, 0) == Above(es, lowWater)
      && forall e | e in es :: e.seqNo <= r.lastSeq
  {
    RestoredValid(l, es, lastSeq, lowWater, acked);
    NothingToDrop(Above(es, lowWater), 0);
    LastIsLargest(es);
  }

  /** Whatever a disk holds, opening it with a new epoch establishes the invariant, with disk and memory agreeing. */
  lemma OpenEstablishesInv(cfg: Config, disk: Disk, epoch: string)
    requires cfg.codec.Valid() && !KnowsEpoch(disk.idx, epoch)
    ensures ReadLog(cfg.codec, disk.log).validBytes <= |disk.log|
    ensures Inv(cfg, Recovered(cfg, disk, epoch)) && Agrees(cfg, Recovered(cfg, disk, epoch))
    ensures Recovered(cfg, disk, epoch).mem == RecoveredMem(cfg, disk)
    ensures Recovered(cfg, disk, epoch).buffer == []
    ensures Recovered(cfg, disk, epoch).chain == RecordEpoch(disk.idx, epoch, RecoveredMem(cfg, disk).lastSeq)
    ensures Recovered(cfg, disk, epoch).disk.idx.value.lastSeq == RecoveredMem(cfg, disk).lastSeq
  {
    TruncateIsIdempotent(cfg.codec, disk.log);
    ReadIncreasing(cfg.codec, disk.log);
    var t := Reopened(cfg, disk, epoch);
    var es := ReadLog(cfg.codec, disk.log).entries;
    RestoredValid(cfg.limits, es, Max(if disk.idx.Some? then disk.idx.value.lastSeq else 0, LastSeq(es)),
                  LowWaterOf(disk.idx), if disk.idx.Some? then disk.idx.value.ackedSeq else 0);
    if ReadLog(cfg.codec, disk.log).skipped > 0 {
      NothingToDrop(t.mem.entries, 0);
      RewrittenMatches(cfg, t);
    } else {
      ReopenedMatches(cfg, disk, epoch);
    }
  }

  // ---- crashes ------------------------------------------------------------------------------------------------

  /** A crash while the buffered lines are being written: the disk has any prefix of the bytes. */
  function Torn(cfg: Config, s: Store, k: nat): Disk
    requires k <= |Serialize(cfg.codec, s.buffer)|
  {
    s.disk.(log := s.disk.log + Serialize(cfg.codec, s.buffer)[..k])
  }

  lemma TornReads(cfg: Config, s: Store, k: nat)
    requires Inv(cfg, s) && k <= |Serialize(cfg.codec, s.buffer)|
    ensures ReadLog(cfg.codec, Torn(cfg, s, k).log).entries
         == Logged(cfg, s) + s.buffer[..WholeLines(Encoded(cfg.codec, s.buffer), k)]
  {
    hide ReadLog;
    IncreasingSplit(Logged(cfg, s), s.buffer);
    CutAppend(cfg.codec, s.disk.log, Logged(cfg, s), s.buffer, k);
  }

  /**
   * A crash at any byte of a write, or between two calls (`k == 0`): what comes back is exactly the entries already
   * in the file and those buffered ones whose line was complete, under the same low-water mark and ack.
   */
  lemma CrashRecovers(cfg: Config, s: Store, k: nat, epoch: string)
    requires Inv(cfg, s) && k <= |Serialize(cfg.codec, s.buffer)| && !KnowsEpoch(s.disk.idx, epoch)
    ensures
      var n := WholeLines(Encoded(cfg.codec, s.buffer), k);
      var r := RecoveredMem(cfg, Torn(cfg, s, k));
      && r.entries == Above(Logged(cfg, s) + s.buffer[..n], s.mem.lowWater)
      && r.lowWater == s.mem.lowWater && r.ackedSeq == Min(s.mem.ackedSeq, r.lastSeq) && r.lastSeq <= s.mem.lastSeq
  {
    hide ReadLog;
    var n := WholeLines(Encoded(cfg.codec, s.buffer), k);
    var kept := Logged(cfg, s) + s.buffer[..n];
    TornReads(cfg, s, k);
    forall e | e in kept
      ensures e.seqNo <= s.mem.lastSeq
    {
      assert e in Known(cfg, s);
    }
    LastIn(kept);
    KeptAbove(kept, s.mem.lowWater, s.mem.lastSeq);
  }

  lemma LastIn(es: seq<Entry>)
    ensures es != [] ==> es[|es| - 1] in es && LastSeq(es) == es[|es| - 1].seqNo
  {
  }

  lemma {:induction false} KeptAbove(es: seq<Entry>, after: nat, bound: nat)
    requires forall e | e in es :: e.seqNo <= bound
    ensures forall e | e in Above(es, after) :: e.seqNo <= bound
    ensures LastSeq(Above(es, after)) <= bound
  {
    if es != [] {
      KeptAbove(es[1..], after, bound);
    }
  }

  /**
   * A synced flush, then a crash, then a new process: every watermark is restored, and the checkpoint a client would
   * be given is that of the retained entries. The entries themselves come back exactly when disk and memory agreed or
   * a rewrite was owed; otherwise tokens dropped silently reappear among them.
   */
  lemma FlushedSurvives(cfg: Config, s: Store, epoch: string)
    requires Inv(cfg, s) && !KnowsEpoch(Flushed(cfg, s, true).disk.idx, epoch)
    ensures
      var r := RecoveredMem(cfg, Flushed(cfg, s, true).disk);
      && r.lastSeq == s.mem.lastSeq && r.ackedSeq == s.mem.ackedSeq && r.lowWater == s.mem.lowWater
      && r.checkpoint == FoldAll(cfg.limits.checkpointMessages, EMPTY_CHECKPOINT, s.mem.entries)
      && DropTokens(r.entries, s.dropped) == s.mem.entries
      && (r.entries == s.mem.entries <==> Agrees(cfg, s) || s.needsRewrite)
  {
    hide Flushed, RecoveredMem, Agrees, DropTokens, FoldAll;
    FlushKeepsInv(cfg, s, true);
    FlushedMatches(cfg, s, true);
    FlushedFrame(cfg, s);
    RestSurvives(cfg, Flushed(cfg, s, true));
    FlushedAgreesIff(cfg, s);
  }

  /** A flush without a rewrite moves what is known into the file as it is. */
  lemma FlushedAgreesIff(cfg: Config, s: Store)
    requires Inv(cfg, s)
    ensures Agrees(cfg, Flushed(cfg, s, true)) <==> Agrees(cfg, s) || s.needsRewrite
  {
    FlushedMatches(cfg, s, true);
    if !s.needsRewrite {
      LinesWrittenMatches(cfg, s);
    }
  }

  lemma FlushedFrame(cfg: Config, s: Store)
    requires !s.closed
    ensures Flushed(cfg, s, true).dropped == s.dropped
    ensures Flushed(cfg, s, true).disk.idx.Some? && Flushed(cfg, s, true).disk.idx.value.lastSeq == s.mem.lastSeq
  {
  }

  /** With nothing buffered and a current sidecar, recovery restores what memory holds. */
  lemma RestSurvives(cfg: Config, t: Store)
    requires Inv(cfg, t) && t.buffer == [] && t.disk.idx.value.lastSeq == t.mem.lastSeq
    ensures
      var r := RecoveredMem(cfg, t.disk);
      && r.lastSeq == t.mem.lastSeq && r.ackedSeq == t.mem.ackedSeq && r.lowWater == t.mem.lowWater
      && r.checkpoint == FoldAll(cfg.limits.checkpointMessages, EMPTY_CHECKPOINT, t.mem.entries)
      && DropTokens(r.entries, t.dropped) == t.mem.entries
      && (r.entries == t.mem.entries <==> Agrees(cfg, t))
  {
    assert Known(cfg, t) == Logged(cfg, t);
    RestoredAgain(cfg.limits, Logged(cfg, t), t.mem, t.dropped);
  }

  /** Restoring from a log that memory is a view of. */
  lemma RestoredAgain(l: Limits, log: seq<Entry>, j: Journal, floor: nat)
    requires Valid(l, j) && Increasing(log) && (forall e | e in log :: e.seqNo <= j.lastSeq)
    requires j.entries == View(log, j.lowWater, floor) && Harmless(j, floor)
    ensures
      var r := Restored(l, log, Max(j.lastSeq, LastSeq(log)), j.lowWater, j.ackedSeq);
      && r.lastSeq == j.lastSeq && r.ackedSeq == j.ackedSeq && r.lowWater == j.lowWater
      && r.checkpoint == FoldAll(l.checkpointMessages, EMPTY_CHECKPOINT, j.entries)
      && r.entries == Above(log, j.lowWater) && DropTokens(r.entries, floor) == j.entries
  {
    LastIn(log);
    KeptAbove(log, j.lowWater, j.lastSeq);
    ViewFolds(l, log, j, floor);
  }
}
