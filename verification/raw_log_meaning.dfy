/**
 * What each event does to the raw-event log (`src/CodexRawLog.ts:31-106`), in full: which entries leave, what is written
 * of them, and what is buffered instead.
 */
module RawLogMeaning {
  import opened Common
  import opened OrderedMap
  import opened Utf8Tails
  import opened RawLog

  // ---- what is written of an entry ----------------------------------------------------------------------------

  /** A buffered event as it came; of a stream, its tail and how much of it that is. */
  function Report(en: Entry, reason: Reason): seq<Written> {
    match en.event
    case Some(e) => [Plain(e)]
    case None =>
      [Compacted(en.threadId, en.turnId, en.itemId, en.source, reason, en.tail, en.original, |en.tail|,
                 en.original - |en.tail|)]
  }

  /** All that is written of the entries, one after the other. */
  function ReportEach(pending: Pairs<Key, Entry>, says: Entry -> seq<Written>): seq<Written> {
    if pending == [] then [] else says(pending[0].1) + ReportEach(pending[1..], says)
  }

  predicate OfTurn(en: Entry, threadId: string, turnId: string) {
    en.threadId == threadId && en.turnId == turnId
  }

  /** The text a completed item shows for a stream: a plan's is its text, a command's its output. */
  function Shown(en: Entry, item: Item): Option<bytes> {
    match en.source
    case PlanDelta => item.text
    case _ => item.output
  }

  /** The item shows all the entry holds, and the entry all it was told. */
  ghost predicate ShownInFull(en: Entry, item: Item) {
    && |en.tail| == en.original == en.size && Shown(en, item).Some?
    && exists a, b :: Shown(en, item).value == a + en.tail + b
  }

  lemma ContainsIs(text: bytes, piece: bytes)
    ensures Contains(text, piece) <==> exists a, b :: text == a + piece + b
  {
    if i: nat :| i <= |text| && FoundAt(text, piece, i) {
      var a, b := text[..i], text[i + |piece|..];
      assert text == a + piece + b;
    }
    if a, b :| text == a + piece + b {
      assert text[|a|..|a| + |piece|] == piece;
      assert FoundAt(text, piece, |a|);
    }
  }

  // ---- sweeping -----------------------------------------------------------------------------------------------

  lemma EmittedAppend(trace: seq<Outcome>, o: Outcome, more: seq<Outcome>)
    ensures Emitted(trace + ([o] + more)) == Emitted(trace + [o] + more)
  {
    Associate(trace, [o], more);
  }

  lemma {:induction false} FatesSay(
      trace: seq<Outcome>, todo: Pairs<Key, Entry>, why: Why, says: Entry -> seq<Written>)
    requires forall kv | kv in todo :: says(kv.1) == if Picked(why, kv.1) then Output(Fate(why, kv.1)) else []
    ensures Emitted(trace + Fates(todo, why)) == Emitted(trace) + ReportEach(todo, says)
    decreases |todo|
  {
    hide Emitted, Picked, Fate, Output;
    if todo == [] {
      assert trace + [] == trace && Emitted(trace) + [] == Emitted(trace);
    } else {
      assert todo[0] in todo && forall kv | kv in todo[1..] :: kv in todo;
      var rest := ReportEach(todo[1..], says);
      if Picked(why, todo[0].1) {
        var o := Fate(why, todo[0].1);
        EmittedStep(trace, o);
        FatesSay(trace + [o], todo[1..], why, says);
        EmittedAppend(trace, o, Fates(todo[1..], why));
        Associate(Emitted(trace), Output(o), rest);
      } else {
        FatesSay(trace, todo[1..], why, says);
        assert [] + Fates(todo[1..], why) == Fates(todo[1..], why) && [] + rest == rest;
      }
    }
  }

  lemma {:induction false} StayIs(todo: Pairs<Key, Entry>, why: Why, stays: (Key, Entry) -> bool)
    requires forall kv | kv in todo :: stays(kv.0, kv.1) <==> !Picked(why, kv.1)
    ensures Stay(todo, why) == Where(todo, stays)
    decreases |todo|
  {
    hide Picked;
    if todo != [] {
      assert todo[0] in todo && forall kv | kv in todo[1..] :: kv in todo;
      StayIs(todo[1..], why, stays);
    }
  }

  /** The entries left are those that stay, in order, and what is written is said of the others, in order. */
  lemma SweepSays(l: Log, why: Why, stays: (Key, Entry) -> bool, says: Entry -> seq<Written>)
    requires Inv(l)
    requires forall kv | kv in l.pending :: stays(kv.0, kv.1) <==> !Picked(why, kv.1)
    requires forall kv | kv in l.pending :: says(kv.1) == if Picked(why, kv.1) then Output(Fate(why, kv.1)) else []
    ensures
      var after := Swept(l, l.pending, why);
      after.pending == Where(l.pending, stays) && Emitted(after.trace) == Emitted(l.trace) + ReportEach(l.pending, says)
  {
    hide Inv, Picked, Fate, Output;
    SweptExactly(l, why);
    FatesSay(l.trace, l.pending, why, says);
    StayIs(l.pending, why, stays);
  }

  lemma HeldTruthful(l: Log)
    requires Inv(l)
    ensures forall kv | kv in l.pending :: Truthful(kv.1)
  {
  }

  lemma ReportIs(en: Entry, reason: Reason)
    requires Truthful(en)
    ensures Output(Reported(en, reason)) == Report(en, reason)
  {
  }

  /** The end of a turn: exactly its entries are reported, oldest first, and then the event; the others stay. */
  lemma TurnCompletedDoes(l: Log, e: Event)
    requires Inv(l) && !OverBudget(l) && e.kind == TurnCompleted && e.threadId != "" && e.turn != ""
    ensures
      var after := Recorded(l, true, e);
      && after.pending == Where(l.pending, (k: Key, en: Entry) => !OfTurn(en, e.threadId, e.turn))
      && Emitted(after.trace)
         == Emitted(l.trace)
            + ReportEach(l.pending, (en: Entry) => if OfTurn(en, e.threadId, e.turn) then Report(en, TurnDone) else [])
            + [Plain(e)]
  {
    hide Inv, Truthful, Output, Report, Emitted, Swept;
    var why := TurnEnd(e.threadId, e.turn);
    var says := (en: Entry) => if OfTurn(en, e.threadId, e.turn) then Report(en, TurnDone) else [];
    HeldTruthful(l);
    forall kv | kv in l.pending ensures says(kv.1) == if Picked(why, kv.1) then Output(Fate(why, kv.1)) else [] {
      ReportIs(kv.1, TurnDone);
    }
    SweepSays(l, why, (k: Key, en: Entry) => !OfTurn(en, e.threadId, e.turn), says);
    EmittedStep(Swept(l, l.pending, why).trace, Wrote(e));
    WroteIs(e);
  }

  lemma WroteIs(e: Event)
    ensures Output(Wrote(e)) == [Plain(e)]
  {
  }

  /**
   * A completed item: exactly its entries leave, oldest first. Of one the item shows in full nothing is written, of any
   * other its report; then the event.
   */
  lemma ItemCompletedDoes(l: Log, e: Event)
    requires Inv(l) && !OverBudget(l) && e.kind == ItemCompleted && e.threadId != "" && e.turnId != "" && e.item.id != ""
    ensures
      var after := Recorded(l, true, e);
      var its := (en: Entry) => OfTurn(en, e.threadId, e.turnId) && en.itemId == e.item.id;
      && after.pending == Where(l.pending, (k: Key, en: Entry) => !its(en))
      && exists says: Entry -> seq<Written> ::
           && (forall kv | kv in l.pending ::
                 says(kv.1) == if its(kv.1) && !ShownInFull(kv.1, e.item) then Report(kv.1, ItemDone) else [])
           && Emitted(after.trace) == Emitted(l.trace) + ReportEach(l.pending, says) + [Plain(e)]
  {
    hide Inv, Truthful, Output, Emitted, Swept, ShownInFull, Report;
    var why := ItemEnd(e);
    var its := (en: Entry) => OfTurn(en, e.threadId, e.turnId) && en.itemId == e.item.id;
    var says := (en: Entry) => if Picked(why, en) then Output(Fate(why, en)) else [];
    HeldTruthful(l);
    forall kv | kv in l.pending
      ensures says(kv.1) == if its(kv.1) && !ShownInFull(kv.1, e.item) then Report(kv.1, ItemDone) else [] {
      if its(kv.1) {
        ItemFate(kv.1, e);
      }
    }
    SweepSays(l, why, (k: Key, en: Entry) => !its(en), says);
    EmittedStep(Swept(l, l.pending, why).trace, Wrote(e));
    WroteIs(e);
  }

  lemma ItemFate(en: Entry, e: Event)
    requires Truthful(en) && en.itemId == e.item.id && e.item.id != ""
    ensures Output(Fate(ItemEnd(e), en)) == if ShownInFull(en, e.item) then [] else Report(en, ItemDone)
  {
    hide Contains;
    if Shown(en, e.item).Some? {
      ContainsIs(Shown(en, e.item).value, en.tail);
    }
  }

  /** The end of the session: everything is reported, or let go of silently when there is no one to tell. */
  lemma SessionEndDoes(l: Log, on: bool)
    requires Inv(l)
    ensures
      var after := Swept(l, l.pending, SessionEnd(on));
      && after.pending == []
      && Emitted(after.trace)
         == Emitted(l.trace) + ReportEach(l.pending, (en: Entry) => if on then Report(en, SessionEnded) else [])
  {
    hide Inv, Truthful, Output, Report, Emitted;
    var says := (en: Entry) => if on then Report(en, SessionEnded) else [];
    HeldTruthful(l);
    forall kv | kv in l.pending
      ensures says(kv.1) == if Picked(SessionEnd(on), kv.1) then Output(Fate(SessionEnd(on), kv.1)) else [] {
      ReportIs(kv.1, SessionEnded);
      ClearedIs(kv.1);
    }
    SweepSays(l, SessionEnd(on), (k: Key, en: Entry) => false, says);
    NoneStay(l.pending);
  }

  lemma ClearedIs(en: Entry)
    ensures Output(Cleared(en)) == []
  {
  }

  lemma {:induction false} NoneStay(pending: Pairs<Key, Entry>)
    ensures Where(pending, (k: Key, en: Entry) => false) == []
    decreases |pending|
  {
    if pending != [] {
      NoneStay(pending[1..]);
    }
  }

  // ---- the rest -----------------------------------------------------------------------------------------------

  /** With no one to tell, all that is buffered is forgotten and nothing is written. */
  lemma MutedDoes(l: Log, e: Event)
    requires Inv(l)
    ensures
      var after := Recorded(l, false, e);
      after.pending == [] && after.bytes == 0 && Emitted(after.trace) == Emitted(l.trace)
  {
    hide Inv, Emitted;
    ClearedEmitsNothing(l.trace, l.pending);
  }

  /** The deltas of a message are not logged; an event of no thread or turn, and any other kind, is written as it is. */
  lemma OthersDo(l: Log, e: Event)
    requires Inv(l)
    ensures e.kind == AgentDelta ==> Recorded(l, true, e) == l
    ensures
      var nowhere := e.threadId == "" || (if e.kind == TurnCompleted then e.turn else e.turnId) == "";
      var streams := (e.kind == OutputDelta || e.kind == PlanDelta) && e.itemId != "" && e.delta.Some?;
      var ends := e.kind == TurnCompleted || (e.kind == ItemCompleted && e.item.id != "");
      e.kind != AgentDelta && (nowhere || !(streams || ends || (e.kind == DiffUpdated && e.diff.Some?))) ==>
        && Recorded(l, true, e).pending == l.pending && Recorded(l, true, e).bytes == l.bytes
        && Emitted(Recorded(l, true, e).trace) == Emitted(l.trace) + [Plain(e)]
  {
    hide Inv, Emitted;
    EmittedStep(l.trace, Wrote(e));
  }

  // ---- buffering ----------------------------------------------------------------------------------------------

  /** What the budget lets go of: oldest first, each reported, and no more than brings it back within 4 MiB and 128 entries. */
  ghost predicate Trims(before: Pairs<Key, Entry>, after: Log, written: seq<Written>, now: seq<Written>) {
    exists n: nat | n <= |before| ::
      && after.pending == before[n..]
      && now == written + ReportEach(before[..n], (en: Entry) => Report(en, BufferLimit))
      && Sum(after.pending) <= 4 * 1024 * 1024 && |after.pending| <= 128
      && (n > 0 ==> Sum(before[n - 1..]) > 4 * 1024 * 1024 || |before| - (n - 1) > 128)
  }

  lemma {:induction false} EnforcedSays(l: Log) returns (n: nat)
    requires l.bytes == Sum(l.pending) && forall kv | kv in l.pending :: Truthful(kv.1)
    ensures n <= |l.pending| && Enforced(l).pending == l.pending[n..] && Enforced(l).bytes == Sum(l.pending[n..])
    ensures Emitted(Enforced(l).trace)
         == Emitted(l.trace) + ReportEach(l.pending[..n], (en: Entry) => Report(en, BufferLimit))
    ensures n > 0 ==> Sum(l.pending[n - 1..]) > 4 * 1024 * 1024 || |l.pending| - (n - 1) > 128
    decreases |l.pending|
  {
    hide Emitted, Truthful, Report, Output;
    var says := (en: Entry) => Report(en, BufferLimit);
    if OverBudget(l) {
      var k, en := l.pending[0].0, l.pending[0].1;
      var o := Reported(en, BufferLimit);
      var rest := Left(l, k, en, o);
      assert l.pending[0] in l.pending && forall kv | kv in rest.pending :: kv in l.pending;
      var m := EnforcedSays(rest);
      n := m + 1;
      ReportIs(en, BufferLimit);
      EmittedStep(l.trace, o);
      assert rest.pending[m..] == l.pending[n..];
      assert l.pending[..n][1..] == rest.pending[..m];
      Associate(Emitted(l.trace), Report(en, BufferLimit), ReportEach(rest.pending[..m], says));
      if m > 0 {
        assert rest.pending[m - 1..] == l.pending[n - 1..];
      } else {
        assert l.pending[0..] == l.pending;
      }
    } else {
      n := 0;
      assert l.pending[0..] == l.pending && l.pending[..0] == [] && Emitted(l.trace) + [] == Emitted(l.trace);
    }
  }

  lemma BufferedDoes(l: Log, e: Event, k: Key, text: bytes)
    requires Inv(l) && Buffered(e) == Some((k, text)) && TextsWellFormed(e)
    ensures
      var entry := NewEntry(e, k, text, Get(l.pending, k));
      && Recorded(l, true, e) == BufferedIn(l, e, k, text)
      && Trims(Delete(l.pending, k) + [(k, entry)], Recorded(l, true, e), Emitted(l.trace),
               Emitted(Recorded(l, true, e).trace))
  {
    hide Inv, Emitted, Truthful, Report, NewEntry, Enforced, Sum, ReportEach;
    BufferedReached(e);
    BufferingKeepsInv(l, e, k, text);
    var b := Buffering(l, e, k, text);
    InvSums(l);
    InvSums(b);
    BufferingSums(l, e, k, text);
    HeldTruthful(b);
    SupersededSilent(l, e, k, text);
    var n := EnforcedSays(b);
  }

  lemma InvSums(l: Log)
    requires Inv(l)
    ensures Unique(l.pending) && l.bytes == Sum(l.pending)
  {
  }

  lemma SupersededSilent(l: Log, e: Event, k: Key, text: bytes)
    ensures Emitted(Buffering(l, e, k, text).trace) == Emitted(l.trace)
  {
    hide Emitted, NewEntry;
    var previous := Get(l.pending, k);
    if k.DiffKey? && previous.Some? {
      EmittedStep(l.trace, Superseded(previous.value));
      assert Emitted(l.trace) + [] == Emitted(l.trace);
    }
  }

  /**
   * A diff replaces the one before it, which is not written: the event itself is buffered, or of one over 512 KiB the tail
   * alone; it goes behind all else, and the budget is restored.
   */
  lemma DiffDoes(l: Log, e: Event)
    requires Inv(l) && TextsWellFormed(e) && e.kind == DiffUpdated && e.diff.Some? && e.threadId != "" && e.turnId != ""
    ensures
      var k, diff, after := DiffKey(e.threadId, e.turnId), e.diff.value, Recorded(l, true, e);
      var en := if |diff| <= 512 * 1024
                then Entry(e.threadId, e.turnId, "", DiffUpdated, Some(e), [], |diff|, e.size, [diff])
                else var tail := Utf8Tail(diff, 512 * 1024);
                     Entry(e.threadId, e.turnId, "", DiffUpdated, None, tail, |diff|, |tail|, [diff]);
      Trims(Delete(l.pending, k) + [(k, en)], after, Emitted(l.trace), Emitted(after.trace))
  {
    hide Inv, Emitted, Trims, Utf8Tail, WellFormed;
    var diff := e.diff.value;
    BufferedDoes(l, e, DiffKey(e.threadId, e.turnId), diff);
    if |diff| > DIFF_BYTES {
      TailIsTight(diff, DIFF_BYTES);
    }
  }

  /**
   * A delta joins what its stream was told before, of which the last 64 KiB are kept and all of it counted; the stream goes
   * behind all else, and the budget is restored.
   */
  lemma DeltaDoes(l: Log, e: Event)
    requires Inv(l) && TextsWellFormed(e) && (e.kind == OutputDelta || e.kind == PlanDelta)
    requires e.itemId != "" && e.delta.Some? && e.threadId != "" && e.turnId != ""
    ensures
      var k, after := ItemKey(e.threadId, e.turnId, e.itemId, e.kind), Recorded(l, true, e);
      var told := match Get(l.pending, k) case Some(en) => en.deltas + [e.delta.value] case None => [e.delta.value];
      var tail := Utf8Tail(Concat(told), 64 * 1024);
      var en := Entry(e.threadId, e.turnId, e.itemId, e.kind, None, tail, |Concat(told)|, |tail|, told);
      Trims(Delete(l.pending, k) + [(k, en)], after, Emitted(l.trace), Emitted(after.trace))
  {
    hide Inv, Emitted, Trims, Utf8Tail, WellFormed, Truthful;
    var k := ItemKey(e.threadId, e.turnId, e.itemId, e.kind);
    BufferedDoes(l, e, k, e.delta.value);
    var previous := Get(l.pending, k);
    if previous.Some? {
      HeldIsTruthful(l, k);
    }
    StreamEntryIs(e, k, previous);
  }

  lemma StreamEntryIs(e: Event, k: Key, previous: Option<Entry>)
    requires (e.kind == OutputDelta || e.kind == PlanDelta) && e.itemId != "" && e.delta.Some? && WellFormed(e.delta.value)
    requires k == ItemKey(e.threadId, e.turnId, e.itemId, e.kind)
    requires previous.Some? ==> Truthful(previous.value) && KeyOf(previous.value) == k
    ensures
      var told := match previous case Some(en) => en.deltas + [e.delta.value] case None => [e.delta.value];
      var tail := Utf8Tail(Concat(told), 64 * 1024);
      StreamEntry(e, previous, e.delta.value)
      == Entry(e.threadId, e.turnId, e.itemId, e.kind, None, tail, |Concat(told)|, |tail|, told)
  {
    hide Utf8Tail, WellFormed;
    var en := StreamEntry(e, previous, e.delta.value);
    StreamEntryTruthful(e, previous, e.delta.value);
    assert previous == None ==> [] + [e.delta.value] == [e.delta.value];
    StreamingIsBatch(en.deltas, TAIL_BYTES);
  }
}
