/**
 * Open requests across a restart. Within a process an open request outlives its own log record
 * (src/protocol/journal.ts:119-122); a restart folds the checkpoint again from what is retained. These lemmas say
 * exactly which requests come back.
 */
module DiskRequests {
  import opened Common
  import opened Wire
  import opened LogParser
  import opened MemoryJournal
  import opened DiskJournals
  import opened DiskDurability

  // ---- the open-request list as a set of records --------------------------------------------------------------

  ghost predicate UniqueIds(open: seq<Entry>) {
    open == [] || ((forall e | e in open[1..] :: OpenId(e) != OpenId(open[0])) && UniqueIds(open[1..]))
  }

  lemma {:induction false} SetOpenIs(open: seq<Entry>, e: Entry)
    requires UniqueIds(open)
    ensures forall x :: x in SetOpen(open, e) <==> x == e || (x in open && OpenId(x) != OpenId(e))
    ensures UniqueIds(SetOpen(open, e))
  {
    if open != [] {
      var rest := open[1..];
      assert forall x :: x in open <==> x == open[0] || x in rest;
      if OpenId(open[0]) == OpenId(e) {
        assert ([e] + rest)[1..] == rest;
      } else {
        SetOpenIs(rest, e);
        assert SetOpen(open, e)[1..] == SetOpen(rest, e);
      }
    }
  }

  lemma {:induction false} CloseRequestIs(open: seq<Entry>, id: string)
    requires UniqueIds(open)
    ensures forall x :: x in CloseRequest(open, id) <==> x in open && OpenId(x) != Some(id)
    ensures UniqueIds(CloseRequest(open, id))
  {
    if open != [] {
      var rest := open[1..];
      CloseRequestIs(rest, id);
      assert forall x :: x in open <==> x == open[0] || x in rest;
      if OpenId(open[0]) != Some(id) {
        assert CloseRequest(open, id)[1..] == CloseRequest(rest, id);
      }
    }
  }

  /** `late` holds exactly the requests of `all` opened above the mark. */
  ghost predicate LateOf(all: Checkpoint, late: Checkpoint, lowWater: nat) {
    && UniqueIds(all.openRequests) && UniqueIds(late.openRequests)
    && forall e :: e in late.openRequests <==> e in all.openRequests && e.seqNo > lowWater
  }

  lemma FoldLate(keep: nat, all: Checkpoint, late: Checkpoint, e: Entry, lowWater: nat)
    requires LateOf(all, late, lowWater) && e.seqNo > lowWater
    ensures LateOf(Fold(keep, all, e), Fold(keep, late, e), lowWater)
  {
    match Classify(e.event)
    case RequestOpen(_) =>
      SetOpenIs(all.openRequests, e);
      SetOpenIs(late.openRequests, e);
    case RequestClose(id) =>
      CloseRequestIs(all.openRequests, id);
      CloseRequestIs(late.openRequests, id);
    case _ =>
  }

  lemma {:induction false} FoldAllLate(keep: nat, all: Checkpoint, late: Checkpoint, es: seq<Entry>, lowWater: nat)
    requires LateOf(all, late, lowWater) && forall e | e in es :: e.seqNo > lowWater
    ensures LateOf(FoldAll(keep, all, es), FoldAll(keep, late, es), lowWater)
    decreases |es|
  {
    if es != [] {
      FoldLate(keep, all, late, es[0], lowWater);
      FoldAllLate(keep, Fold(keep, all, es[0]), Fold(keep, late, es[0]), es[1..], lowWater);
    }
  }

  /** Entries at or below the mark leave no request opened above it. */
  lemma {:induction false} FoldAllEarly(keep: nat, cp: Checkpoint, es: seq<Entry>, lowWater: nat)
    requires UniqueIds(cp.openRequests) && (forall e | e in cp.openRequests :: e.seqNo <= lowWater)
    requires forall e | e in es :: e.seqNo <= lowWater
    ensures
      var r := FoldAll(keep, cp, es).openRequests;
      UniqueIds(r) && forall e | e in r :: e.seqNo <= lowWater
    decreases |es|
  {
    if es != [] {
      match Classify(es[0].event) {
        case RequestOpen(_) => SetOpenIs(cp.openRequests, es[0]);
        case RequestClose(id) => CloseRequestIs(cp.openRequests, id);
        case _ =>
      }
      FoldAllEarly(keep, Fold(keep, cp, es[0]), es[1..], lowWater);
    }
  }

  /** Folding again from above the mark keeps exactly the requests opened above it. */
  lemma RefoldKeepsLateRequests(keep: nat, es: seq<Entry>, lowWater: nat)
    requires Increasing(es)
    ensures LateOf(FoldAll(keep, EMPTY_CHECKPOINT, es), FoldAll(keep, EMPTY_CHECKPOINT, Above(es, lowWater)), lowWater)
  {
    hide FoldAll, Above;
    var early := SplitAtMark(es, lowWater);
    AboveKeeps(es, lowWater);
    FoldAllAppend(keep, EMPTY_CHECKPOINT, early, Above(es, lowWater));
    FoldAllEarly(keep, EMPTY_CHECKPOINT, early, lowWater);
    FoldAllLate(keep, FoldAll(keep, EMPTY_CHECKPOINT, early), EMPTY_CHECKPOINT, Above(es, lowWater), lowWater);
  }

  // ---- one process's life -------------------------------------------------------------------------------------

  /** `es` is everything this process restored or appended, and `floor` how far its tokens have been dropped. */
  ghost predicate FoldedFrom(l: Limits, j: Journal, es: seq<Entry>, floor: nat) {
    && Valid(l, j) && Increasing(es) && (forall e | e in es :: e.seqNo <= j.lastSeq)
    && j.checkpoint == FoldAll(l.checkpointMessages, EMPTY_CHECKPOINT, es)
    && j.entries == View(es, j.lowWater, floor) && Harmless(j, floor)
  }

  lemma LiveFromRestore(l: Limits, es: seq<Entry>, lastSeq: nat, lowWater: nat, acked: nat)
    requires Increasing(es) && LastSeq(es) <= lastSeq
    ensures FoldedFrom(l, Restored(l, es, lastSeq, lowWater, acked), Above(es, lowWater), 0)
  {
    MemRestored(l, es, lastSeq, lowWater, acked);
    AboveKeeps(es, lowWater);
    AboveAbove(es, lowWater, lowWater);
  }

  lemma LiveAppend(l: Limits, j: Journal, es: seq<Entry>, floor: nat, event: WireEvent, ts: int)
    requires FoldedFrom(l, j, es, floor)
    ensures FoldedFrom(l, Appended(l, j, event, ts), es + [NextEntry(j, event, ts)],
                       Max(floor, AppendFloor(l, j, event, ts)))
  {
    var e := NextEntry(j, event, ts);
    AppendedValid(l, j, event, ts);
    PushedValid(l, j, event, ts);
    ViewPushed(l, es, j, floor, e);
    ViewBounded(l, es + [e], Pushed(l, j, e), floor, true);
    KnownExtends(es, j.lastSeq, e);
    FoldAllAppend(l.checkpointMessages, EMPTY_CHECKPOINT, es, [e]);
    assert [e][1..] == [];
  }

  lemma LiveCompact(l: Limits, j: Journal, es: seq<Entry>, floor: nat, now: int)
    requires FoldedFrom(l, j, es, floor)
    ensures FoldedFrom(l, Compacted(l, j, now), es, Max(floor, AckFloor(Expired(l, j, now).entries, j.ackedSeq, 0)))
  {
    CompactedFrame(l, j, now);
    CompactedValid(l, j, now);
    ViewCompacted(l, es, j, floor, now);
  }

  /**
   * The requests a restart restores are exactly the open ones whose record was not evicted; so every open request
   * survives a restart if and only if none of them is at or below the low-water mark.
   */
  lemma RequestsAcrossRestart(l: Limits, j: Journal, es: seq<Entry>, floor: nat)
    requires FoldedFrom(l, j, es, floor)
    ensures
      var back := FoldAll(l.checkpointMessages, EMPTY_CHECKPOINT, j.entries).openRequests;
      && (forall e :: e in back <==> e in j.checkpoint.openRequests && e.seqNo > j.lowWater)
      && ((forall e | e in j.checkpoint.openRequests :: e in back)
          <==> (forall e | e in j.checkpoint.openRequests :: e.seqNo > j.lowWater))
  {
    ViewFolds(l, es, j, floor);
    RefoldKeepsLateRequests(l.checkpointMessages, es, j.lowWater);
  }

  // ---- what a replay is worth ---------------------------------------------------------------------------------

  function UpTo(es: seq<Entry>, seqNo: nat): seq<Entry> {
    if es == [] then [] else (if es[0].seqNo <= seqNo then [es[0]] else []) + UpTo(es[1..], seqNo)
  }

  lemma {:induction false} UpToAndAbove(es: seq<Entry>, seqNo: nat)
    requires Increasing(es)
    ensures es == UpTo(es, seqNo) + Above(es, seqNo)
  {
    if es != [] {
      IncreasingFrom(es, 1);
      FirstIsSmallest(es);
      hide Increasing;
      if es[0].seqNo <= seqNo {
        UpToAndAbove(es[1..], seqNo);
        assert es == [es[0]] + es[1..];
        Associate([es[0]], UpTo(es[1..], seqNo), Above(es[1..], seqNo));
      } else {
        AboveAll(es, seqNo);
        UpToNone(es, seqNo);
      }
    }
  }

  lemma {:induction false} UpToNone(es: seq<Entry>, seqNo: nat)
    requires forall e | e in es :: e.seqNo > seqNo
    ensures UpTo(es, seqNo) == []
  {
    if es != [] {
      UpToNone(es[1..], seqNo);
    }
  }

  lemma ReplayIsView(l: Limits, j: Journal, es: seq<Entry>, floor: nat, after: nat)
    requires FoldedFrom(l, j, es, floor) && j.lowWater <= after
    ensures Above(j.entries, after) == DropTokens(Above(es, after), floor)
    ensures Increasing(Above(es, after)) && SafeFloor(Above(es, after), floor)
  {
    AboveDrop(Above(es, j.lowWater), after, floor);
    AboveAbove(es, j.lowWater, after);
    AboveKeeps(es, after);
    AboveKeeps(es, j.lowWater);
    DropTokensKeeps(Above(es, j.lowWater), floor);
  }

  /**
   * A client holding the checkpoint the journal had at its cursor, and folding in what is replayed past it, holds the
   * journal's checkpoint of now, whatever eviction and token compaction have left out of the replay.
   */
  lemma ReplayCatchesUp(l: Limits, j: Journal, es: seq<Entry>, floor: nat, after: nat)
    requires FoldedFrom(l, j, es, floor) && j.lowWater <= after
    ensures
      var keep := l.checkpointMessages;
      FoldAll(keep, FoldAll(keep, EMPTY_CHECKPOINT, UpTo(es, after)), Above(j.entries, after)) == j.checkpoint
  {
    hide FoldAll, Above, SafeFloor, DropTokens, UpTo, View;
    var keep := l.checkpointMessages;
    ReplayIsView(l, j, es, floor, after);
    UpToAndAbove(es, after);
    FoldAllAppend(keep, EMPTY_CHECKPOINT, UpTo(es, after), Above(es, after));
    CompactionInvisible(keep, FoldAll(keep, EMPTY_CHECKPOINT, UpTo(es, after)), Above(es, after), floor);
  }
}
