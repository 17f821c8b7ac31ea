/**
 * The resumable event stream of one thread (`src/protocol/journal.ts`, `InMemoryJournal`): numbering, replay,
 * retention by eviction and by token compaction, and the checkpoint folded as events arrive.
 *
 * `Journal` is the state as a value, with one function per operation; class `InMemoryJournal` is the object the
 * daemon updates in place, each of its methods proved to compute that function.
 */
module MemoryJournal {
  import opened Common
  import opened Wire
  import opened LogParser

  /** `size` is the length of an event's JSON. */
  datatype Limits = Limits(
    maxEntries: Option<nat>, maxBytes: Option<nat>, maxAgeMs: Option<nat>, checkpointMessages: nat,
    size: WireEvent -> nat)

  /** `openRequests` keeps the insertion order of the original's `Map`. */
  datatype Checkpoint = Checkpoint(
    inFlightText: string, openRequests: seq<Entry>, state: Option<Entry>, recentMessages: seq<Entry>)

  const EMPTY_CHECKPOINT := Checkpoint("", [], None, [])

  datatype Journal = Journal(
    entries: seq<Entry>, bytes: int, lastSeq: nat, lowWater: nat, ackedSeq: nat, checkpoint: Checkpoint)

  datatype Replay = Entries(entries: seq<Entry>) | Resync(checkpoint: Checkpoint, lastSeq: nat)

  // ---- the checkpoint fold ----------------------------------------------------------------------------------

  function OpenId(e: Entry): Option<string> {
    match Classify(e.event)
    case RequestOpen(id) => Some(id)
    case _ => None
  }

  function SetOpen(open: seq<Entry>, e: Entry): seq<Entry> {
    if open == [] then [e]
    else if OpenId(open[0]) == OpenId(e) then [e] + open[1..]
    else [open[0]] + SetOpen(open[1..], e)
  }

  function CloseRequest(open: seq<Entry>, id: string): seq<Entry> {
    if open == [] then []
    else if OpenId(open[0]) == Some(id) then CloseRequest(open[1..], id)
    else [open[0]] + CloseRequest(open[1..], id)
  }

  function Fold(keep: nat, cp: Checkpoint, e: Entry): Checkpoint {
    match Classify(e.event)
    case TokenRole(text) => cp.(inFlightText := cp.inFlightText + text)
    case MessageRole =>
      var recent := cp.recentMessages + [e];
      cp.(inFlightText := "",
          recentMessages := if |recent| > keep then recent[|recent| - keep..] else recent)
    case TurnEnd => cp.(inFlightText := "")
    case RequestOpen(_) => cp.(openRequests := SetOpen(cp.openRequests, e))
    case RequestClose(id) => cp.(openRequests := CloseRequest(cp.openRequests, id))
    case State => cp.(state := Some(e))
    case OtherRole => cp
  }

  function FoldAll(keep: nat, cp: Checkpoint, es: seq<Entry>): Checkpoint
    decreases |es|
  {
    if es == [] then cp else FoldAll(keep, Fold(keep, cp, es[0]), es[1..])
  }

  // ---- retention ----------------------------------------------------------------------------------------------

  function SizeOf(l: Limits, es: seq<Entry>): nat {
    if es == [] then 0 else l.size(es[0].event) + SizeOf(l, es[1..])
  }

  predicate IsToken(e: Entry) { Classify(e.event).TokenRole? }

  /** A message or the end of a turn: the tokens before it are redundant. */
  predicate IsFinisher(e: Entry) { Classify(e.event).MessageRole? || Classify(e.event).TurnEnd? }

  predicate Over(l: Limits, count: nat, bytes: int) {
    || (l.maxEntries.Some? && count > l.maxEntries.value)
    || (l.maxBytes.Some? && bytes > l.maxBytes.value && count > 1)
  }

  /** How far tokens may go: the last acknowledged message or turn end retained, or `floor` without one. */
  function AckFloor(es: seq<Entry>, acked: nat, floor: nat): nat {
    if es == [] || es[0].seqNo > acked then floor
    else AckFloor(es[1..], acked, if IsFinisher(es[0]) then es[0].seqNo else floor)
  }

  function DropTokens(es: seq<Entry>, floor: nat): seq<Entry> {
    if es == [] then []
    else if IsToken(es[0]) && es[0].seqNo < floor then DropTokens(es[1..], floor)
    else [es[0]] + DropTokens(es[1..], floor)
  }

  function EvictCount(l: Limits, es: seq<Entry>, bytes: int): (n: nat)
    ensures n <= |es|
  {
    if es == [] || !Over(l, |es|, bytes) then 0
    else 1 + EvictCount(l, es[1..], bytes - l.size(es[0].event))
  }

  function ExpiredCount(es: seq<Entry>, cutoff: int): (n: nat)
    ensures n <= |es|
  {
    if es == [] || es[0].ts >= cutoff then 0 else 1 + ExpiredCount(es[1..], cutoff)
  }

  function Evicted(l: Limits, j: Journal, n: nat): Journal
    requires n <= |j.entries|
  {
    if n == 0 then j else
      j.(entries := j.entries[n..],
         bytes := j.bytes - SizeOf(l, j.entries[..n]),
         lowWater := Max(j.lowWater, j.entries[n - 1].seqNo))
  }

  function WithoutAckedTokens(l: Limits, j: Journal): Journal {
    var floor := AckFloor(j.entries, j.ackedSeq, 0);
    if floor == 0 then j else
      var kept := DropTokens(j.entries, floor);
      j.(entries := kept, bytes := j.bytes - (SizeOf(l, j.entries) - SizeOf(l, kept)))
  }

  function Bounded(l: Limits, j: Journal, compactFirst: bool): Journal {
    if !Over(l, |j.entries|, j.bytes) then j else
      var k := if compactFirst then WithoutAckedTokens(l, j) else j;
      Evicted(l, k, EvictCount(l, k.entries, k.bytes))
  }

  // ---- the operations as functions ----------------------------------------------------------------------------

  function NextEntry(j: Journal, event: WireEvent, ts: int): Entry {
    Entry(j.lastSeq + 1, ts, event)
  }

  function Pushed(l: Limits, j: Journal, e: Entry): Journal {
    j.(entries := j.entries + [e],
       bytes := j.bytes + l.size(e.event),
       lastSeq := e.seqNo,
       checkpoint := Fold(l.checkpointMessages, j.checkpoint, e))
  }

  function Appended(l: Limits, j: Journal, event: WireEvent, ts: int): Journal {
    Bounded(l, Pushed(l, j, NextEntry(j, event, ts)), true)
  }

  function Replayed(j: Journal, afterSeq: nat): Replay {
    if afterSeq < j.lowWater then Resync(j.checkpoint, j.lastSeq) else Entries(Above(j.entries, afterSeq))
  }

  function Acked(j: Journal, seqNo: int): Journal {
    j.(ackedSeq := Max(j.ackedSeq, Min(seqNo, j.lastSeq)))
  }

  function Expired(l: Limits, j: Journal, now: int): Journal {
    if l.maxAgeMs.None? then j else Evicted(l, j, ExpiredCount(j.entries, now - l.maxAgeMs.value))
  }

  function Compacted(l: Limits, j: Journal, now: int): Journal {
    Bounded(l, WithoutAckedTokens(l, Expired(l, j, now)), false)
  }

  /** What `compact` reports as removed: everything gone since expiry, not only tokens. */
  function Removed(l: Limits, j: Journal, now: int): int {
    |Expired(l, j, now).entries| - |Compacted(l, j, now).entries|
  }

  const FRESH := Journal([], 0, 0, 0, 0, EMPTY_CHECKPOINT)

  function Restored(l: Limits, es: seq<Entry>, lastSeq: nat, lowWater: nat, acked: nat): Journal {
    var kept := Above(es, lowWater);
    var last := Max(Max(lastSeq, LastSeq(kept)), lowWater);
    Journal(kept, SizeOf(l, kept), last, lowWater, Min(acked, last),
            FoldAll(l.checkpointMessages, EMPTY_CHECKPOINT, kept))
  }

  // ---- what every operation keeps -----------------------------------------------------------------------------

  ghost predicate Valid(l: Limits, j: Journal) {
    && Increasing(j.entries)
    && (forall e | e in j.entries :: j.lowWater < e.seqNo <= j.lastSeq)
    && j.lowWater <= j.lastSeq && j.ackedSeq <= j.lastSeq
    && j.bytes == SizeOf(l, j.entries)
  }

  lemma {:induction false} SizeOfAppend(l: Limits, a: seq<Entry>, b: seq<Entry>)
    ensures SizeOf(l, a + b) == SizeOf(l, a) + SizeOf(l, b)
  {
    if a == [] {
      assert a + b == b;
    } else {
      assert (a + b)[1..] == a[1..] + b;
      SizeOfAppend(l, a[1..], b);
    }
  }

  /** `b` is `a` with some entries left out. */
  lemma {:induction false} DropTokensKeeps(es: seq<Entry>, floor: nat)
    requires Increasing(es)
    ensures Increasing(DropTokens(es, floor))
    ensures forall e | e in DropTokens(es, floor) :: e in es && !(IsToken(e) && e.seqNo < floor)
    ensures forall e | e in es && !(IsToken(e) && e.seqNo < floor) :: e in DropTokens(es, floor)
    ensures es != [] && DropTokens(es, floor) != [] ==> es[0].seqNo <= DropTokens(es, floor)[0].seqNo
  {
    if es != [] {
      var rest := es[1..];
      IncreasingTail(es);
      hide Increasing, IsToken;
      DropTokensKeeps(rest, floor);
      assert forall e :: e in es <==> e == es[0] || e in rest;
      IncreasingCons(es[0], DropTokens(rest, floor));
    }
  }

  lemma EvictedValid(l: Limits, j: Journal, n: nat)
    requires Valid(l, j) && n <= |j.entries|
    ensures Valid(l, Evicted(l, j, n))
  {
    if n > 0 {
      assert j.entries == j.entries[..n] + j.entries[n..];
      SizeOfAppend(l, j.entries[..n], j.entries[n..]);
      assert j.entries[n - 1] in j.entries;
      SuffixIncreasing(j.entries, n);
    }
  }

  lemma SuffixIncreasing(es: seq<Entry>, n: nat)
    requires Increasing(es) && n <= |es|
    ensures Increasing(es[n..])
    ensures forall e | e in es[n..] :: e in es && (n > 0 ==> es[n - 1].seqNo < e.seqNo)
  {
    forall e | e in es[n..]
      ensures e in es && (n > 0 ==> es[n - 1].seqNo < e.seqNo)
    {
      var i :| 0 <= i < |es| - n && es[n..][i] == e;
      assert es[n + i] == e;
    }
  }

  lemma WithoutAckedTokensValid(l: Limits, j: Journal)
    requires Valid(l, j)
    ensures Valid(l, WithoutAckedTokens(l, j))
  {
    DropTokensKeeps(j.entries, AckFloor(j.entries, j.ackedSeq, 0));
  }

  lemma BoundedValid(l: Limits, j: Journal, compactFirst: bool)
    requires Valid(l, j)
    ensures Valid(l, Bounded(l, j, compactFirst))
  {
    if Over(l, |j.entries|, j.bytes) {
      var k := if compactFirst then WithoutAckedTokens(l, j) else j;
      WithoutAckedTokensValid(l, j);
      EvictedValid(l, k, EvictCount(l, k.entries, k.bytes));
    }
  }

  lemma PushedValid(l: Limits, j: Journal, event: WireEvent, ts: int)
    requires Valid(l, j)
    ensures Valid(l, Pushed(l, j, NextEntry(j, event, ts)))
  {
    var e := NextEntry(j, event, ts);
    SizeOfAppend(l, j.entries, [e]);
    assert forall i | 0 <= i < |j.entries| :: j.entries[i] in j.entries;
  }

  /** Numbering never goes back: an append takes the next number, and nothing else moves `lastSeq`. */
  lemma AppendedValid(l: Limits, j: Journal, event: WireEvent, ts: int)
    requires Valid(l, j)
    ensures Valid(l, Appended(l, j, event, ts)) && Appended(l, j, event, ts).lastSeq == j.lastSeq + 1
    ensures Appended(l, j, event, ts).lowWater >= j.lowWater
    ensures Appended(l, j, event, ts).ackedSeq == j.ackedSeq
    ensures Appended(l, j, event, ts).checkpoint
         == Fold(l.checkpointMessages, j.checkpoint, NextEntry(j, event, ts))
  {
    PushedValid(l, j, event, ts);
    BoundedValid(l, Pushed(l, j, NextEntry(j, event, ts)), true);
  }

  lemma ExpiredValid(l: Limits, j: Journal, now: int)
    requires Valid(l, j)
    ensures Valid(l, Expired(l, j, now))
  {
    if l.maxAgeMs.Some? {
      var n := ExpiredCount(j.entries, now - l.maxAgeMs.value);
      EvictedValid(l, j, n);
      assert Expired(l, j, now) == Evicted(l, j, n);
    }
  }

  lemma CompactedValid(l: Limits, j: Journal, now: int)
    requires Valid(l, j)
    ensures Valid(l, Compacted(l, j, now))
  {
    var k := Expired(l, j, now);
    ExpiredValid(l, j, now);
    WithoutAckedTokensValid(l, k);
    BoundedValid(l, WithoutAckedTokens(l, k), false);
  }

  /** Compaction touches the retained entries and the low-water mark only. */
  lemma CompactedFrame(l: Limits, j: Journal, now: int)
    ensures
      var k := Compacted(l, j, now);
      && k.lastSeq == j.lastSeq && k.ackedSeq == j.ackedSeq && k.checkpoint == j.checkpoint
      && k.lowWater >= j.lowWater
  {
  }

  lemma LastIsLargest(es: seq<Entry>)
    requires Increasing(es)
    ensures forall e | e in es :: e.seqNo <= LastSeq(es)
  {
    forall e | e in es
      ensures e.seqNo <= LastSeq(es)
    {
      var i :| 0 <= i < |es| && es[i] == e;
      assert i < |es| - 1 ==> es[i].seqNo < es[|es| - 1].seqNo;
    }
  }

  lemma RestoredValid(l: Limits, es: seq<Entry>, lastSeq: nat, lowWater: nat, acked: nat)
    requires Increasing(es)
    ensures Valid(l, Restored(l, es, lastSeq, lowWater, acked))
  {
    AboveKeeps(es, lowWater);
    LastIsLargest(Above(es, lowWater));
  }

  // ---- the size bounds ----------------------------------------------------------------------------------------

  /** The evicted prefix is the shortest one that brings the journal within its bounds. */
  lemma {:induction false} EvictCountIsLeast(l: Limits, es: seq<Entry>, bytes: int)
    requires bytes == SizeOf(l, es)
    ensures
      var n := EvictCount(l, es, bytes);
      && (n == |es| || !Over(l, |es| - n, SizeOf(l, es[n..])))
      && (forall k | 0 <= k < n :: Over(l, |es| - k, SizeOf(l, es[k..])))
  {
    if es != [] && Over(l, |es|, bytes) {
      hide Over;
      var rest := es[1..];
      EvictCountIsLeast(l, rest, bytes - l.size(es[0].event));
      assert es[0..] == es;
      assert forall k | 1 <= k <= |es| :: es[k..] == rest[k - 1..];
    } else {
      assert es[0..] == es;
    }
  }

  /** After an append the journal holds at most `maxEntries`, and at most `maxBytes` unless one entry is larger. */
  lemma AppendedWithinBounds(l: Limits, j: Journal, event: WireEvent, ts: int)
    requires Valid(l, j)
    ensures
      var k := Appended(l, j, event, ts);
      && (l.maxEntries.Some? ==> |k.entries| <= l.maxEntries.value)
      && (l.maxBytes.Some? ==> k.bytes <= l.maxBytes.value || |k.entries| <= 1)
  {
    var p := Pushed(l, j, NextEntry(j, event, ts));
    PushedValid(l, j, event, ts);
    if Over(l, |p.entries|, p.bytes) {
      WithoutAckedTokensValid(l, p);
      EvictedWithinBounds(l, WithoutAckedTokens(l, p));
    }
  }

  lemma EvictedWithinBounds(l: Limits, j: Journal)
    requires Valid(l, j)
    ensures
      var k := Evicted(l, j, EvictCount(l, j.entries, j.bytes));
      && (l.maxEntries.Some? ==> |k.entries| <= l.maxEntries.value)
      && (l.maxBytes.Some? ==> k.bytes <= l.maxBytes.value || |k.entries| <= 1)
  {
    hide Increasing;
    var n := EvictCount(l, j.entries, j.bytes);
    EvictCountIsLeast(l, j.entries, j.bytes);
    EvictedValid(l, j, n);
  }

  // ---- what compact reports -----------------------------------------------------------------------------------

  /** The tokens a compaction drops. */
  function TokensDropped(l: Limits, j: Journal, now: int): int {
    |Expired(l, j, now).entries| - |WithoutAckedTokens(l, Expired(l, j, now)).entries|
  }

  /**
   * `compact` promises the number of token events it removed. What it reports is that number exactly when the journal
   * is within its bounds once the tokens are gone; otherwise evicted entries are counted with them.
   */
  lemma RemovedCountsTokensIff(l: Limits, j: Journal, now: int)
    ensures
      var k := WithoutAckedTokens(l, Expired(l, j, now));
      && Removed(l, j, now) == TokensDropped(l, j, now) + EvictCount(l, k.entries, k.bytes)
      && (Removed(l, j, now) == TokensDropped(l, j, now) <==> !Over(l, |k.entries|, k.bytes))
  {
    hide Expired, WithoutAckedTokens;
  }

  /** A journal within its bounds, as every append leaves it, is counted right whatever expires. */
  lemma WithinBoundsCountsTokens(l: Limits, j: Journal, now: int)
    requires Valid(l, j) && !Over(l, |j.entries|, j.bytes)
    ensures Removed(l, j, now) == TokensDropped(l, j, now)
  {
    hide Over;
    var x := Expired(l, j, now);
    var k := WithoutAckedTokens(l, x);
    ExpiredValid(l, j, now);
    WithoutAckedTokensValid(l, x);
    ExpiredFewer(l, j, now);
    DropTokensFewer(l, x.entries, AckFloor(x.entries, x.ackedSeq, 0));
    FewerIsWithin(l, |j.entries|, j.bytes, |k.entries|, k.bytes);
    RemovedCountsTokensIff(l, j, now);
  }

  lemma FewerIsWithin(l: Limits, count: nat, bytes: int, fewer: nat, less: int)
    requires !Over(l, count, bytes) && fewer <= count && less <= bytes
    ensures !Over(l, fewer, less)
  {
  }

  lemma ExpiredFewer(l: Limits, j: Journal, now: int)
    ensures |Expired(l, j, now).entries| <= |j.entries| && Expired(l, j, now).bytes <= j.bytes
  {
  }

  lemma {:induction false} DropTokensFewer(l: Limits, es: seq<Entry>, floor: nat)
    ensures |DropTokens(es, floor)| <= |es| && SizeOf(l, DropTokens(es, floor)) <= SizeOf(l, es)
  {
    if es != [] {
      DropTokensFewer(l, es[1..], floor);
    }
  }

  /** A journal restored under smaller bounds than it was written under: an evicted turn end is reported as a token. */
  lemma EvictionReportedAsToken(size: WireEvent -> nat)
    ensures
      var l := Limits(Some(1), None, None, 20, size);
      var j := Restored(l, [Entry(1, 0, Done), Entry(2, 0, Done)], 2, 0, 0);
      && Valid(l, j) && TokensDropped(l, j, 0) == 0 && Removed(l, j, 0) == 1
      && Compacted(l, j, 0).entries == [Entry(2, 0, Done)]
  {
    var l := Limits(Some(1), None, None, 20, size);
    var es := [Entry(1, 0, Done), Entry(2, 0, Done)];
    assert es[1..] == [Entry(2, 0, Done)] && es[1..][1..] == [];
    assert Above(es, 0) == es;
    var j := Restored(l, es, 2, 0, 0);
    RestoredValid(l, es, 2, 0, 0);
    assert AckFloor(es, 0, 0) == 0;
    assert EvictCount(l, es, j.bytes) == 1;
  }

  // ---- token compaction is invisible to a checkpoint ----------------------------------------------------------

  /** Equal except for the text streamed so far. */
  ghost predicate SameButText(a: Checkpoint, b: Checkpoint) {
    a.(inFlightText := "") == b.(inFlightText := "")
  }

  lemma {:induction false} FoldAllAppend(keep: nat, cp: Checkpoint, a: seq<Entry>, b: seq<Entry>)
    ensures FoldAll(keep, cp, a + b) == FoldAll(keep, FoldAll(keep, cp, a), b)
    decreases |a|
  {
    if a == [] {
      assert a + b == b;
    } else {
      assert (a + b)[1..] == a[1..] + b;
      FoldAllAppend(keep, Fold(keep, cp, a[0]), a[1..], b);
    }
  }

  /** Leaving out tokens changes nothing but the streamed text. */
  lemma {:induction false} FoldWithoutTokens(keep: nat, a: Checkpoint, b: Checkpoint, es: seq<Entry>, floor: nat)
    requires SameButText(a, b)
    ensures SameButText(FoldAll(keep, a, DropTokens(es, floor)), FoldAll(keep, b, es))
    decreases |es|
  {
    if es != [] {
      if IsToken(es[0]) && es[0].seqNo < floor {
        FoldWithoutTokens(keep, a, Fold(keep, b, es[0]), es[1..], floor);
      } else {
        FoldWithoutTokens(keep, Fold(keep, a, es[0]), Fold(keep, b, es[0]), es[1..], floor);
      }
    }
  }

  lemma {:induction false} DropTokensAppend(a: seq<Entry>, b: seq<Entry>, floor: nat)
    ensures DropTokens(a + b, floor) == DropTokens(a, floor) + DropTokens(b, floor)
  {
    if a == [] {
      assert a + b == b;
    } else {
      assert (a + b)[1..] == a[1..] + b;
      DropTokensAppend(a[1..], b, floor);
    }
  }

  lemma {:induction false} NothingToDrop(es: seq<Entry>, floor: nat)
    requires forall e | e in es :: !(IsToken(e) && e.seqNo < floor)
    ensures DropTokens(es, floor) == es
  {
    if es != [] {
      NothingToDrop(es[1..], floor);
    }
  }

  /** `floor` is low enough to drop nothing, or it is the number of a finisher among the entries. */
  ghost predicate SafeFloor(es: seq<Entry>, floor: nat) {
    || (forall e | e in es :: floor <= e.seqNo)
    || (exists e | e in es :: e.seqNo == floor && IsFinisher(e))
  }

  /** Dropping the tokens below a retained finisher changes nothing of what a reader makes of the entries. */
  lemma CompactionInvisible(keep: nat, cp: Checkpoint, es: seq<Entry>, floor: nat)
    requires Increasing(es) && SafeFloor(es, floor)
    ensures FoldAll(keep, cp, DropTokens(es, floor)) == FoldAll(keep, cp, es)
  {
    if forall e | e in es :: floor <= e.seqNo {
      NothingToDrop(es, floor);
    } else {
      var f :| f in es && f.seqNo == floor && IsFinisher(f);
      var i :| 0 <= i < |es| && es[i] == f;
      var a, b := es[..i], es[i + 1..];
      var da := DropTokens(a, floor);
      assert es == a + [f] + b;
      DropAroundFinisher(es, i);
      FoldWithoutTokens(keep, cp, cp, a, floor);
      FoldAllAppend(keep, cp, a + [f], b);
      FoldAllAppend(keep, cp, a, [f]);
      FoldAllAppend(keep, cp, da + [f], b);
      FoldAllAppend(keep, cp, da, [f]);
      FinisherResets(keep, FoldAll(keep, cp, da), FoldAll(keep, cp, a), f);
    }
  }

  lemma DropAroundFinisher(es: seq<Entry>, i: nat)
    requires Increasing(es) && i < |es| && IsFinisher(es[i])
    ensures DropTokens(es, es[i].seqNo) == DropTokens(es[..i], es[i].seqNo) + [es[i]] + es[i + 1..]
  {
    hide DropTokens;
    var a, f, b := es[..i], es[i], es[i + 1..];
    assert es == a + [f] + b;
    DropTokensAppend(a + [f], b, f.seqNo);
    DropTokensAppend(a, [f], f.seqNo);
    SuffixIncreasing(es, i + 1);
    NothingToDrop(b, f.seqNo);
    NothingToDrop([f], f.seqNo);
  }

  lemma FinisherResets(keep: nat, a: Checkpoint, b: Checkpoint, f: Entry)
    requires SameButText(a, b) && IsFinisher(f)
    ensures FoldAll(keep, a, [f]) == FoldAll(keep, b, [f])
  {
    assert [f][1..] == [];
  }

  lemma {:induction false} AckFloorIsFinisher(es: seq<Entry>, acked: nat, floor: nat)
    ensures
      var f := AckFloor(es, acked, floor);
      f == floor || (f <= acked && exists e | e in es :: e.seqNo == f && IsFinisher(e))
    decreases |es|
  {
    if es != [] && es[0].seqNo <= acked {
      AckFloorIsFinisher(es[1..], acked, if IsFinisher(es[0]) then es[0].seqNo else floor);
      assert es[0] in es;
    }
  }

  /** No acknowledged finisher is newer than the floor. */
  lemma {:induction false} AckFloorIsNewest(es: seq<Entry>, acked: nat, floor: nat)
    requires Increasing(es) && (es != [] ==> floor < es[0].seqNo)
    ensures floor <= AckFloor(es, acked, floor)
    ensures forall e | e in es && IsFinisher(e) && e.seqNo <= acked :: e.seqNo <= AckFloor(es, acked, floor)
    decreases |es|
  {
    if es != [] {
      var rest := es[1..];
      assert rest != [] ==> es[0].seqNo < rest[0].seqNo;
      if es[0].seqNo <= acked {
        AckFloorIsNewest(rest, acked, if IsFinisher(es[0]) then es[0].seqNo else floor);
        assert forall e | e in es :: e == es[0] || e in rest;
      } else {
        FirstIsSmallest(es);
      }
    }
  }

  lemma FirstIsSmallest(es: seq<Entry>)
    requires Increasing(es) && es != []
    ensures forall e | e in es :: es[0].seqNo <= e.seqNo
  {
  }

  /** One turn of the loop that restores entries. */
  lemma RestoreOne(l: Limits, es: seq<Entry>, low: nat, i: nat, kept: seq<Entry>)
    requires i < |es|
    ensures
      if es[i].seqNo > low then
        && kept + Above(es[i..], low) == kept + [es[i]] + Above(es[i + 1..], low)
        && SizeOf(l, kept + [es[i]]) == SizeOf(l, kept) + l.size(es[i].event)
        && FoldAll(l.checkpointMessages, EMPTY_CHECKPOINT, kept + [es[i]])
           == Fold(l.checkpointMessages, FoldAll(l.checkpointMessages, EMPTY_CHECKPOINT, kept), es[i])
      else Above(es[i..], low) == Above(es[i + 1..], low)
  {
    assert es[i..][1..] == es[i + 1..];
    assert [es[i]][1..] == [];
    SizeOfAppend(l, kept, [es[i]]);
    FoldAllAppend(l.checkpointMessages, EMPTY_CHECKPOINT, kept, [es[i]]);
    Associate(kept, [es[i]], Above(es[i + 1..], low));
  }

  // ---- the object ---------------------------------------------------------------------------------------------

  class InMemoryJournal {
    const limits: Limits
    var entries: seq<Entry>
    var bytes: int
    var lastSeq: nat
    var lowWater: nat
    var ackedSeq: nat
    var checkpoint: Checkpoint

    ghost function Value(): Journal
      reads this
    {
      Journal(entries, bytes, lastSeq, lowWater, ackedSeq, checkpoint)
    }

    constructor (limits: Limits)
      ensures Value() == FRESH && this.limits == limits
    {
      this.limits := limits;
      entries, bytes, lastSeq, lowWater, ackedSeq := [], 0, 0, 0, 0;
      checkpoint := EMPTY_CHECKPOINT;
    }

    method Restore(es: seq<Entry>, last: nat, low: nat, acked: nat)
      requires Value() == FRESH
      modifies this
      ensures Value() == Restored(limits, es, last, low, acked)
    {
      RestoreEntries(es, low);
      var tail := if |entries| > 0 then entries[|entries| - 1].seqNo else 0;
      lastSeq := Max(Max(last, tail), low);
      lowWater := low;
      ackedSeq := Min(acked, lastSeq);
    }

    method RestoreEntries(es: seq<Entry>, low: nat)
      requires entries == [] && bytes == 0 && checkpoint == EMPTY_CHECKPOINT
      modifies this`entries, this`bytes, this`checkpoint
      ensures entries == Above(es, low) && bytes == SizeOf(limits, entries)
      ensures checkpoint == FoldAll(limits.checkpointMessages, EMPTY_CHECKPOINT, entries)
    {
      var i := 0;
      while i < |es|
        invariant 0 <= i <= |es|
        invariant Above(es, low) == entries + Above(es[i..], low)
        invariant bytes == SizeOf(limits, entries)
        invariant checkpoint == FoldAll(limits.checkpointMessages, EMPTY_CHECKPOINT, entries)
      {
        RestoreOne(limits, es, low, i, entries);
        if es[i].seqNo > low {
          entries := entries + [es[i]];
          bytes := bytes + limits.size(es[i].event);
          checkpoint := Fold(limits.checkpointMessages, checkpoint, es[i]);
        }
        i := i + 1;
      }
      assert es[i..] == [] && entries + [] == entries;
    }

    method Append(event: WireEvent, ts: int) returns (entry: Entry)
      modifies this
      ensures entry == old(NextEntry(Value(), event, ts))
      ensures Value() == Appended(limits, old(Value()), event, ts)
    {
      lastSeq := lastSeq + 1;
      entry := Entry(lastSeq, ts, event);
      entries := entries + [entry];
      bytes := bytes + limits.size(event);
      checkpoint := Fold(limits.checkpointMessages, checkpoint, entry);
      assert Value() == Pushed(limits, old(Value()), entry);
      EnforceBounds(true);
    }

    method ReplayAfter(afterSeq: nat) returns (r: Replay)
      ensures r == Replayed(Value(), afterSeq)
    {
      if afterSeq < lowWater {
        return Resync(checkpoint, lastSeq);
      }
      var kept := [];
      var i := 0;
      while i < |entries|
        invariant 0 <= i <= |entries|
        invariant Above(entries, afterSeq) == kept + Above(entries[i..], afterSeq)
      {
        assert entries[i..][1..] == entries[i + 1..];
        if entries[i].seqNo > afterSeq {
          Associate(kept, [entries[i]], Above(entries[i + 1..], afterSeq));
          kept := kept + [entries[i]];
        }
        i := i + 1;
      }
      r := Entries(kept);
    }

    method Ack(seqNo: int)
      modifies this
      ensures Value() == Acked(old(Value()), seqNo)
    {
      ackedSeq := Max(ackedSeq, Min(seqNo, lastSeq));
    }

    method Compact(now: int) returns (removed: int)
      modifies this
      ensures Value() == Compacted(limits, old(Value()), now) && removed == Removed(limits, old(Value()), now)
    {
      EvictExpired(now);
      var before := |entries|;
      DropFinishedAckedTokens();
      EnforceBounds(false);
      removed := before - |entries|;
    }

    method FindFloor() returns (floor: nat)
      ensures floor == AckFloor(entries, ackedSeq, 0)
    {
      floor := 0;
      var i := 0;
      while i < |entries| && entries[i].seqNo <= ackedSeq
        invariant 0 <= i <= |entries|
        invariant AckFloor(entries, ackedSeq, 0) == AckFloor(entries[i..], ackedSeq, floor)
      {
        assert entries[i..][1..] == entries[i + 1..];
        if IsFinisher(entries[i]) {
          floor := entries[i].seqNo;
        }
        i := i + 1;
      }
    }

    method DropFinishedAckedTokens()
      modifies this`entries, this`bytes
      ensures Value() == WithoutAckedTokens(limits, old(Value()))
    {
      hide IsToken, Fold;
      var floor := FindFloor();
      if floor == 0 {
        return;
      }
      var kept: seq<Entry> := [];
      var i := 0;
      while i < |entries|
        invariant 0 <= i <= |entries| && entries == old(entries)
        invariant DropTokens(entries, floor) == kept + DropTokens(entries[i..], floor)
        invariant bytes - SizeOf(limits, kept) - SizeOf(limits, entries[i..])
               == old(bytes) - SizeOf(limits, entries)
      {
        assert entries[i..][1..] == entries[i + 1..];
        if IsToken(entries[i]) && entries[i].seqNo < floor {
          bytes := bytes - limits.size(entries[i].event);
        } else {
          Associate(kept, [entries[i]], DropTokens(entries[i + 1..], floor));
          SizeOfAppend(limits, kept, [entries[i]]);
          assert [entries[i]][1..] == [];
          kept := kept + [entries[i]];
        }
        i := i + 1;
      }
      assert entries[i..] == [] && kept + [] == kept;
      entries := kept;
    }

    method EvictExpired(now: int)
      modifies this`entries, this`bytes, this`lowWater
      ensures Value() == Expired(limits, old(Value()), now)
    {
      if limits.maxAgeMs.None? {
        return;
      }
      var cutoff := now - limits.maxAgeMs.value;
      var n := 0;
      while n < |entries| && entries[n].ts < cutoff
        invariant 0 <= n <= |entries|
        invariant ExpiredCount(entries, cutoff) == n + ExpiredCount(entries[n..], cutoff)
      {
        assert entries[n..][1..] == entries[n + 1..];
        n := n + 1;
      }
      EvictPrefix(n);
    }

    method EnforceBounds(compactFirst: bool)
      modifies this`entries, this`bytes, this`lowWater
      ensures Value() == Bounded(limits, old(Value()), compactFirst)
    {
      hide WithoutAckedTokens, Over, SizeOf, Fold;
      if !Over(limits, |entries|, bytes) {
        return;
      }
      if compactFirst {
        DropFinishedAckedTokens();
      }
      var n := OverBy();
      EvictPrefix(n);
    }

    /** The loop's counters alone: how many of the oldest entries have to go. */
    method OverBy() returns (n: nat)
      ensures n == EvictCount(limits, entries, bytes)
    {
      hide Over;
      var count, left := |entries|, bytes;
      n := 0;
      while n < |entries| && Over(limits, count, left)
        invariant 0 <= n <= |entries| && count == |entries| - n
        invariant EvictCount(limits, entries, bytes) == n + EvictCount(limits, entries[n..], left)
      {
        assert entries[n..][1..] == entries[n + 1..];
        left := left - limits.size(entries[n].event);
        count := count - 1;
        n := n + 1;
      }
    }

    method EvictPrefix(n: nat)
      requires n <= |entries|
      modifies this`entries, this`bytes, this`lowWater
      ensures Value() == Evicted(limits, old(Value()), n)
    {
      if n == 0 {
        return;
      }
      var removed := entries[..n];
      entries := entries[n..];
      var i := 0;
      while i < |removed|
        invariant 0 <= i <= |removed|
        invariant entries == old(entries)[n..] && lowWater == old(lowWater)
        invariant bytes - SizeOf(limits, removed[i..]) == old(bytes) - SizeOf(limits, removed)
      {
        assert removed[i..][1..] == removed[i + 1..];
        bytes := bytes - limits.size(removed[i].event);
        i := i + 1;
      }
      lowWater := Max(lowWater, removed[|removed| - 1].seqNo);
    }
  }
}
