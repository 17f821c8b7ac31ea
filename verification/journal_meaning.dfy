/**
 * What a journal's retention and checkpoint mean, said without the functions that compute them: which entries an append
 * or a compaction may let go of (src/protocol/journal.ts:201-284), and what a checkpoint shows of a history
 * (src/protocol/journal.ts:220-236).
 */
module JournalMeaning {
  import opened Common
  import opened Wire
  import opened LogParser
  import opened MemoryJournal
  import opened DiskJournals
  import opened DiskRequests

  // ---- what may go --------------------------------------------------------------------------------------------

  predicate EndsText(event: WireEvent) {
    event.Message? || event.Done? || event.Interrupted? || event.Failed?
  }

  /** A token with an acknowledged message or turn end behind it: no reader will miss it. */
  ghost predicate Redundant(es: seq<Entry>, acked: nat, e: Entry) {
    e.event.Token? && exists f | f in es :: EndsText(f.event) && f.seqNo <= acked && e.seqNo < f.seqNo
  }

  lemma RolesAre(e: Entry)
    ensures IsToken(e) <==> e.event.Token?
    ensures IsFinisher(e) <==> EndsText(e.event)
  {
  }

  /** The floor tokens are dropped below finds exactly the redundant ones. */
  lemma FloorFindsRedundant(es: seq<Entry>, acked: nat, e: Entry)
    requires Increasing(es) && e in es
    ensures IsToken(e) && e.seqNo < AckFloor(es, acked, 0) <==> Redundant(es, acked, e)
  {
    hide IsToken, IsFinisher, AckFloor;
    RolesAre(e);
    AckFloorIsFinisher(es, acked, 0);
    AckFloorIsNewest(es, acked, 0) by { FirstIsPositive(es); }
    if Redundant(es, acked, e) {
      var f :| f in es && EndsText(f.event) && f.seqNo <= acked && e.seqNo < f.seqNo;
      RolesAre(f);
    } else if e.event.Token? && e.seqNo < AckFloor(es, acked, 0) {
      var f :| f in es && f.seqNo == AckFloor(es, acked, 0) && IsFinisher(f);
      RolesAre(f);
    }
  }

  lemma FirstIsPositive(es: seq<Entry>)
    requires Increasing(es)
    ensures es != [] ==> 0 < es[0].seqNo
  {
  }

  lemma DropsRedundant(l: Limits, j: Journal)
    requires Increasing(j.entries)
    ensures forall e :: e in WithoutAckedTokens(l, j).entries <==> e in j.entries && !Redundant(j.entries, j.ackedSeq, e)
  {
    hide Redundant, AckFloor, IsToken;
    var floor := AckFloor(j.entries, j.ackedSeq, 0);
    DropTokensKeeps(j.entries, floor);
    forall e | e in j.entries
      ensures IsToken(e) && e.seqNo < floor <==> Redundant(j.entries, j.ackedSeq, e)
    {
      FloorFindsRedundant(j.entries, j.ackedSeq, e);
    }
  }

  // ---- eviction -----------------------------------------------------------------------------------------------

  /** With one entry more, of `size` bytes, the journal would pass a bound. */
  predicate OneMoreIsTooMuch(l: Limits, j: Journal, size: nat) {
    || (l.maxEntries.Some? && |j.entries| + 1 > l.maxEntries.value)
    || (l.maxBytes.Some? && j.bytes + size > l.maxBytes.value && |j.entries| >= 1)
  }

  /** `k` is `j` with a prefix evicted, and no more of it than the bounds demand. */
  ghost predicate EvictedLeast(l: Limits, j: Journal, k: Journal) {
    exists n | 0 <= n <= |j.entries| ::
      && k.entries == j.entries[n..]
      && k.lowWater == (if n == 0 then j.lowWater else j.entries[n - 1].seqNo)
      && (n > 0 ==> OneMoreIsTooMuch(l, k, l.size(j.entries[n - 1].event)))
  }

  lemma EvictsLeast(l: Limits, j: Journal)
    requires Valid(l, j)
    ensures EvictedLeast(l, j, Evicted(l, j, EvictCount(l, j.entries, j.bytes)))
  {
    hide EvictCount, SizeOf, Increasing;
    var n := EvictCount(l, j.entries, j.bytes);
    var k := Evicted(l, j, n);
    EvictCountIsLeast(l, j.entries, j.bytes);
    EvictedValid(l, j, n);
    if n > 0 {
      assert j.entries[n - 1] in j.entries;
      SizeOfTail(l, j.entries, n - 1);
      assert Over(l, |j.entries| - (n - 1), SizeOf(l, j.entries[n - 1..]));
      assert k.entries == j.entries[n..];
    } else {
      assert k.entries == j.entries[0..];
    }
  }

  lemma SizeOfTail(l: Limits, es: seq<Entry>, i: nat)
    requires i < |es|
    ensures SizeOf(l, es[i..]) == l.size(es[i].event) + SizeOf(l, es[i + 1..])
  {
    assert es[i..][1..] == es[i + 1..];
  }

  lemma NothingEvicted(l: Limits, j: Journal)
    ensures EvictedLeast(l, j, j)
  {
    assert j.entries[0..] == j.entries;
  }

  /** Whether a journal of these entries passes a bound. */
  predicate TooMuch(l: Limits, count: nat, bytes: int) {
    (l.maxEntries.Some? && count > l.maxEntries.value) || (l.maxBytes.Some? && bytes > l.maxBytes.value && count > 1)
  }

  /** The entries kept of `es`: all but the redundant tokens. */
  ghost predicate KeepsAllElse(es: seq<Entry>, acked: nat, kept: seq<Entry>) {
    Increasing(kept) && forall e :: e in kept <==> e in es && !Redundant(es, acked, e)
  }

  /**
   * An append first makes room, and only when it must: within its bounds it lets go of nothing; past one, of the redundant
   * tokens, and then of the shortest prefix that brings it back.
   */
  lemma AppendLetsGoOf(l: Limits, j: Journal, event: WireEvent, ts: int) returns (kept: Journal)
    requires Valid(l, j)
    ensures
      var e := Entry(j.lastSeq + 1, ts, event);
      if TooMuch(l, |j.entries| + 1, j.bytes + l.size(event)) then KeepsAllElse(j.entries + [e], j.ackedSeq, kept.entries)
      else kept.entries == j.entries + [e]
    ensures kept.lowWater == j.lowWater && Valid(l, kept) && EvictedLeast(l, kept, Appended(l, j, event, ts))
    ensures !TooMuch(l, |Appended(l, j, event, ts).entries|, Appended(l, j, event, ts).bytes)
    ensures !TooMuch(l, |j.entries| + 1, j.bytes + l.size(event)) ==>
      Appended(l, j, event, ts).entries == j.entries + [Entry(j.lastSeq + 1, ts, event)]
  {
    hide EvictCount, SizeOf, EvictedLeast, Redundant, AckFloor, DropTokens, Increasing;
    var p := Pushed(l, j, NextEntry(j, event, ts));
    PushedValid(l, j, event, ts);
    if Over(l, |p.entries|, p.bytes) {
      kept := WithoutAckedTokens(l, p);
      WithoutAckedTokensValid(l, p);
      DropsRedundant(l, p);
      EvictsLeast(l, kept);
      EvictedWithinBounds(l, kept);
    } else {
      kept := p;
      NothingEvicted(l, p);
    }
  }

  /**
   * What expires: exactly the entries before the first one that is young enough, none of them within the age; without an
   * age limit, none.
   */
  lemma ExpiresOldest(l: Limits, j: Journal, now: int) returns (n: nat)
    requires Valid(l, j)
    ensures n <= |j.entries| && Expired(l, j, now).entries == j.entries[n..]
    ensures Expired(l, j, now).lowWater == if n == 0 then j.lowWater else j.entries[n - 1].seqNo
    ensures l.maxAgeMs.None? ==> n == 0
    ensures l.maxAgeMs.Some? ==> forall i | 0 <= i < n :: j.entries[i].ts < now - l.maxAgeMs.value
    ensures l.maxAgeMs.Some? && n < |j.entries| ==> j.entries[n].ts >= now - l.maxAgeMs.value
  {
    hide Increasing, SizeOf, ExpiredCount;
    n := 0;
    assert j.entries[0..] == j.entries;
    if l.maxAgeMs.Some? {
      n := ExpiredCount(j.entries, now - l.maxAgeMs.value);
      ExpiredCountIs(j.entries, now - l.maxAgeMs.value);
      if n > 0 {
        assert j.entries[n - 1] in j.entries;
      }
    }
  }

  lemma {:induction false} ExpiredCountIs(es: seq<Entry>, cutoff: int)
    ensures
      var n := ExpiredCount(es, cutoff);
      && (forall i | 0 <= i < n :: es[i].ts < cutoff)
      && (n < |es| ==> es[n].ts >= cutoff)
  {
    if es != [] && es[0].ts < cutoff {
      ExpiredCountIs(es[1..], cutoff);
      var n := ExpiredCount(es, cutoff);
      assert forall i | 1 <= i < n :: es[i] == es[1..][i - 1];
    }
  }

  /**
   * A compaction lets go of the expired prefix, of the tokens redundant in what is left, and, past a bound only, of the
   * shortest prefix of the rest; nothing else.
   */
  lemma CompactionLetsGoOf(l: Limits, j: Journal, now: int) returns (young: Journal, kept: Journal)
    requires Valid(l, j)
    ensures young == Expired(l, j, now) && young.ackedSeq == j.ackedSeq
    ensures KeepsAllElse(young.entries, j.ackedSeq, kept.entries) && kept.lowWater == young.lowWater && Valid(l, kept)
    ensures EvictedLeast(l, kept, Compacted(l, j, now))
    ensures !TooMuch(l, |Compacted(l, j, now).entries|, Compacted(l, j, now).bytes)
    ensures !TooMuch(l, |kept.entries|, kept.bytes) ==> Compacted(l, j, now).entries == kept.entries
  {
    hide EvictCount, SizeOf, EvictedLeast, Redundant, AckFloor, DropTokens, Increasing, ExpiredCount;
    young := Expired(l, j, now);
    kept := WithoutAckedTokens(l, young);
    ExpiredValid(l, j, now);
    WithoutAckedTokensValid(l, young);
    DropsRedundant(l, young);
    if Over(l, |kept.entries|, kept.bytes) {
      EvictsLeast(l, kept);
      EvictedWithinBounds(l, kept);
    } else {
      NothingEvicted(l, kept);
    }
  }

  // ---- acks and replays ---------------------------------------------------------------------------------------

  /** An ack never goes back and never past what was appended; in between it is taken as it is. */
  lemma AckIsMonotonic(j: Journal, seqNo: int)
    requires j.ackedSeq <= j.lastSeq
    ensures
      var k := Acked(j, seqNo);
      && k == j.(ackedSeq := k.ackedSeq) && j.ackedSeq <= k.ackedSeq <= j.lastSeq
      && (seqNo <= j.ackedSeq ==> k.ackedSeq == j.ackedSeq)
      && (j.ackedSeq <= seqNo <= j.lastSeq ==> k.ackedSeq == seqNo)
      && (seqNo >= j.lastSeq ==> k.ackedSeq == j.lastSeq)
  {
  }

  /** A replay is a resync exactly for a cursor below the mark; otherwise all that is retained past the cursor, in order. */
  lemma ReplayIsExact(l: Limits, j: Journal, after: nat)
    requires Valid(l, j)
    ensures
      match Replayed(j, after)
      case Resync(checkpoint, lastSeq) => after < j.lowWater && checkpoint == j.checkpoint && lastSeq == j.lastSeq
      case Entries(es) =>
        after >= j.lowWater && Increasing(es) && forall e :: e in es <==> e in j.entries && e.seqNo > after
  {
    AboveKeeps(j.entries, after);
  }

  // ---- the checkpoint of a history ----------------------------------------------------------------------------

  function Messages(es: seq<Entry>): seq<Entry> {
    if es == [] then [] else
      Messages(es[..|es| - 1]) + (if es[|es| - 1].event.Message? then [es[|es| - 1]] else [])
  }

  /** The texts of the tokens, in order. */
  function Streamed(es: seq<Entry>): string {
    if es == [] then "" else
      var last := es[|es| - 1].event;
      Streamed(es[..|es| - 1]) + (if last.Token? then last.text else "")
  }

  /** The request or call an event opens; none under an empty id. */
  function Opened(event: WireEvent): Option<string> {
    match event
    case Request(_, id) => if id == "" then None else Some(id)
    case ToolCall(id) => if id == "" then None else Some(id)
    case _ => None
  }

  function Closed(event: WireEvent): Option<string> {
    match event
    case RequestResolved(id, _) => if id == "" then None else Some(id)
    case ToolCancel(id) => if id == "" then None else Some(id)
    case _ => None
  }

  /** Entry `i` opened a request that nothing after it opened again or closed. */
  ghost predicate StillOpen(es: seq<Entry>, i: nat) {
    && i < |es| && Opened(es[i].event).Some?
    && forall k | i < k < |es| :: Opened(es[k].event) != Opened(es[i].event) && Closed(es[k].event) != Opened(es[i].event)
  }

  ghost predicate ShowsOpen(es: seq<Entry>, open: seq<Entry>) {
    UniqueIds(open) && forall e :: e in open <==> exists i: nat | i < |es| :: StillOpen(es, i) && es[i] == e
  }

  ghost predicate ShowsState(es: seq<Entry>, state: Option<Entry>) {
    match state
    case None => forall e | e in es :: !e.event.SessionState?
    case Some(e) =>
      exists i | 0 <= i < |es| :: es[i] == e && e.event.SessionState? && forall k | i < k < |es| :: !es[k].event.SessionState?
  }

  /** The text of the tokens behind the last message or turn end. */
  ghost predicate ShowsText(es: seq<Entry>, text: string) {
    exists p: nat | p <= |es| ::
      && text == Streamed(es[p..])
      && (p > 0 ==> EndsText(es[p - 1].event)) && (forall k | p <= k < |es| :: !EndsText(es[k].event))
  }

  ghost predicate ShowsMessages(es: seq<Entry>, keep: nat, recent: seq<Entry>) {
    |recent| == Min(keep, |Messages(es)|) && recent == Messages(es)[|Messages(es)| - |recent|..]
  }

  lemma OpenedIs(e: Entry)
    ensures OpenId(e) == Opened(e.event)
    ensures Classify(e.event).RequestOpen? <==> Opened(e.event).Some?
    ensures forall id :: Classify(e.event) == RequestClose(id) <==> Closed(e.event) == Some(id)
    ensures Opened(e.event).Some? ==> Closed(e.event).None?
  {
  }

  function OpenAfter(open: seq<Entry>, e: Entry): seq<Entry> {
    match Classify(e.event)
    case RequestOpen(_) => SetOpen(open, e)
    case RequestClose(id) => CloseRequest(open, id)
    case _ => open
  }

  lemma OpenAfterIs(open: seq<Entry>, e: Entry)
    requires UniqueIds(open) && forall x | x in open :: Opened(x.event).Some?
    ensures UniqueIds(OpenAfter(open, e))
    ensures forall x :: x in OpenAfter(open, e) <==>
      || (x == e && Opened(e.event).Some?)
      || (x in open && Opened(e.event) != Opened(x.event) && Closed(e.event) != Opened(x.event))
  {
    hide SetOpen, CloseRequest, UniqueIds, Classify, OpenId;
    OpenedIs(e);
    forall x ensures OpenId(x) == Opened(x.event) {
      OpenedIs(x);
    }
    match Classify(e.event) {
      case RequestOpen(_) => SetOpenIs(open, e);
      case RequestClose(id) => CloseRequestIs(open, id);
      case _ =>
    }
  }

  lemma OpenSnoc(es: seq<Entry>, e: Entry, i: nat)
    ensures
      var more := es + [e];
      && (i < |es| ==> (StillOpen(more, i) <==> StillOpen(es, i) && Opened(e.event) != Opened(es[i].event)
                                                && Closed(e.event) != Opened(es[i].event)))
      && (i == |es| ==> (StillOpen(more, i) <==> Opened(e.event).Some?))
  {
    hide Opened, Closed;
    var more := es + [e];
    assert forall k | 0 <= k < |es| :: more[k] == es[k];
    assert more[|es|] == e;
  }

  lemma OpenStep(es: seq<Entry>, open: seq<Entry>, e: Entry)
    requires ShowsOpen(es, open)
    ensures ShowsOpen(es + [e], OpenAfter(open, e))
  {
    hide OpenAfter, UniqueIds, Opened, Closed, StillOpen;
    var more := es + [e];
    assert forall x | x in open :: Opened(x.event).Some? by { OpenAreOpened(es, open); }
    OpenAfterIs(open, e);
    forall x
      ensures x in OpenAfter(open, e) <==> exists i: nat | i < |more| :: StillOpen(more, i) && more[i] == x
    {
      if x in OpenAfter(open, e) {
        if x == e && Opened(e.event).Some? {
          OpenSnoc(es, e, |es|);
          assert more[|es|] == x;
        } else {
          var i: nat :| i < |es| && StillOpen(es, i) && es[i] == x;
          StillOpenIn(es, i);
          OpenSnoc(es, e, i);
          assert more[i] == x;
        }
      }
      if i: nat :| i < |more| && StillOpen(more, i) && more[i] == x {
        StillOpenIn(more, i);
        OpenSnoc(es, e, i);
        if i < |es| {
          assert more[i] == es[i];
        }
      }
    }
  }

  lemma StillOpenIn(es: seq<Entry>, i: nat)
    requires StillOpen(es, i)
    ensures i < |es| && Opened(es[i].event).Some?
  {
  }

  lemma OpenAreOpened(es: seq<Entry>, open: seq<Entry>)
    requires ShowsOpen(es, open)
    ensures forall x | x in open :: Opened(x.event).Some?
  {
    hide StillOpen, UniqueIds, Opened;
    forall x | x in open ensures Opened(x.event).Some? {
      var i: nat :| i < |es| && StillOpen(es, i) && es[i] == x;
      StillOpenIn(es, i);
    }
  }

  lemma StateStep(es: seq<Entry>, state: Option<Entry>, e: Entry)
    requires ShowsState(es, state)
    ensures ShowsState(es + [e], if e.event.SessionState? then Some(e) else state)
  {
    var more := es + [e];
    assert forall k | 0 <= k < |es| :: more[k] == es[k];
    assert more[|es|] == e;
  }

  lemma TextStep(es: seq<Entry>, text: string, e: Entry)
    requires ShowsText(es, text)
    ensures ShowsText(es + [e], if EndsText(e.event) then "" else if e.event.Token? then text + e.event.text else text)
  {
    hide Streamed, EndsText;
    var more := es + [e];
    if EndsText(e.event) {
      assert more[|more|..] == [] && more[|more| - 1] == e;
      assert Streamed([]) == "" by { NothingStreamed(); }
    } else {
      var p: nat :| p <= |es| && text == Streamed(es[p..])
                    && (p > 0 ==> EndsText(es[p - 1].event)) && (forall k | p <= k < |es| :: !EndsText(es[k].event));
      assert more[p..] == es[p..] + [e];
      StreamedSnoc(es[p..], e);
      assert p > 0 ==> more[p - 1] == es[p - 1];
      forall k | p <= k < |more| ensures !EndsText(more[k].event) {
        assert k < |es| ==> more[k] == es[k];
      }
    }
  }

  lemma NothingStreamed()
    ensures Streamed([]) == ""
  {
  }

  lemma MessagesStep(es: seq<Entry>, keep: nat, recent: seq<Entry>, e: Entry)
    requires ShowsMessages(es, keep, recent)
    ensures
      var more := recent + [e];
      ShowsMessages(es + [e], keep,
                    if !e.event.Message? then recent else if |more| > keep then more[|more| - keep..] else more)
  {
    hide Messages;
    MessagesSnoc(es, e);
    if e.event.Message? {
      LastOnes(Messages(es), keep, recent, e);
    }
  }

  lemma MessagesSnoc(es: seq<Entry>, e: Entry)
    ensures Messages(es + [e]) == if e.event.Message? then Messages(es) + [e] else Messages(es)
  {
    assert (es + [e])[..|es|] == es;
    assert Messages(es) + [] == Messages(es);
  }

  lemma StreamedSnoc(es: seq<Entry>, e: Entry)
    ensures Streamed(es + [e]) == if e.event.Token? then Streamed(es) + e.event.text else Streamed(es)
  {
    assert (es + [e])[..|es|] == es;
    assert Streamed(es) + "" == Streamed(es);
  }

  lemma LastOnes(all: seq<Entry>, keep: nat, recent: seq<Entry>, e: Entry)
    requires |recent| == Min(keep, |all|) && recent == all[|all| - |recent|..]
    ensures
      var more := recent + [e];
      var kept := if |more| > keep then more[|more| - keep..] else more;
      |kept| == Min(keep, |all| + 1) && kept == (all + [e])[|all| + 1 - |kept|..]
  {
    var cut := |all| - |recent|;
    assert (all + [e])[cut..] == recent + [e];
    if |recent| + 1 > keep {
      assert (all + [e])[cut..][|recent| + 1 - keep..] == (all + [e])[cut + (|recent| + 1 - keep)..];
    }
  }

  /**
   * What a checkpoint shows of the history it was folded from: the requests opened and since neither closed nor opened
   * again, each once; the last session state; the text streamed since the last message or turn end; and the last `keep`
   * messages.
   */
  lemma {:induction false} CheckpointMeans(keep: nat, es: seq<Entry>)
    ensures
      var cp := FoldAll(keep, EMPTY_CHECKPOINT, es);
      && ShowsOpen(es, cp.openRequests) && ShowsState(es, cp.state)
      && ShowsText(es, cp.inFlightText) && ShowsMessages(es, keep, cp.recentMessages)
    decreases |es|
  {
    hide FoldAll, ShowsOpen, ShowsState, ShowsText, ShowsMessages;
    if es == [] {
      NothingShown(keep);
    } else {
      var before, e := es[..|es| - 1], es[|es| - 1];
      var cp := FoldAll(keep, EMPTY_CHECKPOINT, before);
      CheckpointMeans(keep, before);
      FoldOne(keep, cp, before, e);
      FoldParts(keep, cp, e);
      assert es == before + [e];
      OpenStep(before, cp.openRequests, e);
      StateStep(before, cp.state, e);
      TextStep(before, cp.inFlightText, e);
      MessagesStep(before, keep, cp.recentMessages, e);
    }
  }

  lemma NothingShown(keep: nat)
    ensures
      var cp := FoldAll(keep, EMPTY_CHECKPOINT, []);
      && ShowsOpen([], cp.openRequests) && ShowsState([], cp.state)
      && ShowsText([], cp.inFlightText) && ShowsMessages([], keep, cp.recentMessages)
  {
    var es: seq<Entry> := [];
    assert es[0..] == [];
  }

  lemma FoldOne(keep: nat, cp: Checkpoint, before: seq<Entry>, e: Entry)
    requires cp == FoldAll(keep, EMPTY_CHECKPOINT, before)
    ensures FoldAll(keep, EMPTY_CHECKPOINT, before + [e]) == Fold(keep, cp, e)
  {
    FoldAllAppend(keep, EMPTY_CHECKPOINT, before, [e]);
    assert [e][1..] == [];
  }

  lemma FoldParts(keep: nat, cp: Checkpoint, e: Entry)
    ensures
      var after := Fold(keep, cp, e);
      var more := cp.recentMessages + [e];
      && after.openRequests == OpenAfter(cp.openRequests, e)
      && after.state == (if e.event.SessionState? then Some(e) else cp.state)
      && after.inFlightText == (if EndsText(e.event) then "" else
                                if e.event.Token? then cp.inFlightText + e.event.text else cp.inFlightText)
      && after.recentMessages == (if !e.event.Message? then cp.recentMessages else
                                  if |more| > keep then more[|more| - keep..] else more)
  {
  }

  // ---- the order of open requests -----------------------------------------------------------------------------

  /** A request opened again keeps its place, as a key of a JavaScript `Map` does; a new one goes last. */
  lemma {:induction false} OpenedKeepsPlace(open: seq<Entry>, e: Entry)
    requires UniqueIds(open) && OpenId(e).Some?
    ensures (forall x | x in open :: OpenId(x) != OpenId(e)) ==> SetOpen(open, e) == open + [e]
    ensures forall i | 0 <= i < |open| && OpenId(open[i]) == OpenId(e) :: SetOpen(open, e) == open[i := e]
  {
    if open != [] && OpenId(open[0]) != OpenId(e) {
      var rest := open[1..];
      OpenedKeepsPlace(rest, e);
      assert forall x | x in rest :: x in open;
      forall i | 0 <= i < |open| && OpenId(open[i]) == OpenId(e) ensures SetOpen(open, e) == open[i := e] {
        assert rest[i - 1] == open[i] && open[i := e] == [open[0]] + rest[i - 1 := e];
      }
      assert open + [e] == [open[0]] + (rest + [e]);
    } else if open != [] {
      assert open[0] in open;
      FirstAlone(open);
      assert open[0 := e] == [e] + open[1..];
    }
  }

  lemma FirstAlone(open: seq<Entry>)
    requires UniqueIds(open) && open != []
    ensures forall i | 0 < i < |open| :: OpenId(open[i]) != OpenId(open[0])
  {
    assert forall i | 0 < i < |open| :: open[i] == open[1..][i - 1];
  }

  /** Closing leaves the others in their order. */
  lemma {:induction false} ClosedKeepsOrder(open: seq<Entry>, id: string)
    ensures CloseRequest(open, id) == Kept(open, (e: Entry) => OpenId(e) != Some(id))
  {
    if open != [] {
      ClosedKeepsOrder(open[1..], id);
    }
  }

  function Kept(es: seq<Entry>, keep: Entry -> bool): seq<Entry> {
    if es == [] then [] else (if keep(es[0]) then [es[0]] else []) + Kept(es[1..], keep)
  }
}
