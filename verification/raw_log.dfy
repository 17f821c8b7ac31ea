/**
 * The raw-event log's buffer (`src/CodexRawLog.ts`): the tail of each streamed output is kept until it is reported,
 * superseded, or shown to be contained in the completed item, within a budget of bytes and entries.
 *
 * `Log` is the buffer as a value; class `CodexRawLog` is the object. `deltas` (in an entry) and `trace` are history:
 * everything the entry was told, and everything that left the buffer or was written, in order.
 */
module RawLog {
  import opened Common
  import opened OrderedMap
  import opened Utf8Tails

  const TAIL_BYTES: nat := 64 * 1024
  const DIFF_BYTES: nat := 512 * 1024
  const PENDING_BYTES: nat := 4 * 1024 * 1024
  const PENDING_ENTRIES: nat := 128

  datatype Method = AgentDelta | TurnCompleted | ItemCompleted | DiffUpdated | OutputDelta | PlanDelta
    | Other(name: string)

  datatype Item = Item(id: string, text: Option<bytes>, output: Option<bytes>)

  /** What the log looks at in an event; `""` is an id that is missing or not text, `size` the whole event's. */
  datatype Event = Event(kind: Method, threadId: string, turnId: string, turn: string, itemId: string,
                         item: Item, diff: Option<bytes>, delta: Option<bytes>, size: nat)

  datatype Key = DiffKey(threadId: string, turnId: string)
    | ItemKey(threadId: string, turnId: string, itemId: string, source: Method)

  datatype Entry = Entry(threadId: string, turnId: string, itemId: string, source: Method, event: Option<Event>,
                         tail: bytes, original: nat, size: nat, deltas: seq<bytes>)

  datatype Reason = ItemDone | TurnDone | SessionEnded | BufferLimit

  datatype Outcome =
    | Wrote(event: Event)
    | Reported(entry: Entry, reason: Reason)
    | Contained(entry: Entry, complete: bytes)
    | Superseded(entry: Entry)
    | Cleared(entry: Entry)

  datatype Written =
    | Plain(event: Event)
    | Compacted(threadId: string, turnId: string, itemId: string, source: Method, reason: Reason, tail: bytes,
                original: nat, retained: nat, omitted: int)

  /** What the emitter is given for one outcome. */
  function Output(o: Outcome): seq<Written> {
    match o
    case Wrote(e) => [Plain(e)]
    case Reported(en, why) =>
      if en.event.Some? then [Plain(en.event.value)]
      else [Compacted(en.threadId, en.turnId, en.itemId, en.source, why, en.tail, en.original, en.size,
                      en.original - en.size)]
    case _ => []
  }

  datatype Log = Log(pending: Pairs<Key, Entry>, bytes: int, trace: seq<Outcome>)

  // ---- the operations as functions ----------------------------------------------------------------------------

  function TurnOf(e: Event): string {
    if e.kind == TurnCompleted then e.turn else e.turnId
  }

  predicate Streams(e: Event) {
    (e.kind == OutputDelta || e.kind == PlanDelta) && e.itemId != "" && e.delta.Some?
  }

  predicate FoundAt(text: bytes, piece: bytes, i: nat) {
    i + |piece| <= |text| && text[i..i + |piece|] == piece
  }

  predicate Contains(text: bytes, piece: bytes) {
    exists i: nat | i <= |text| :: FoundAt(text, piece, i)
  }

  /** Why entries leave: a turn or the session ended (with or without an emitter), or an item completed. */
  datatype Why = TurnEnd(threadId: string, turnId: string) | SessionEnd(on: bool) | ItemEnd(event: Event)

  predicate Picked(why: Why, en: Entry) {
    match why
    case TurnEnd(threadId, turnId) => en.threadId == threadId && en.turnId == turnId
    case SessionEnd(_) => true
    case ItemEnd(e) => en.threadId == e.threadId && en.turnId == e.turnId && en.itemId == e.item.id
  }

  function CompleteText(en: Entry, item: Item): Option<bytes> {
    if en.source == PlanDelta then item.text else item.output
  }

  function Fate(why: Why, en: Entry): Outcome {
    match why
    case TurnEnd(_, _) => Reported(en, TurnDone)
    case SessionEnd(on) => if on then Reported(en, SessionEnded) else Cleared(en)
    case ItemEnd(e) =>
      var complete := CompleteText(en, e.item);
      if en.original == en.size && complete.Some? && Contains(complete.value, en.tail)
      then Contained(en, complete.value) else Reported(en, ItemDone)
  }

  function Left(l: Log, k: Key, en: Entry, o: Outcome): Log {
    Log(Delete(l.pending, k), l.bytes - en.size, l.trace + [o])
  }

  /** The loops over the entries, `todo` being the ones still to visit. */
  function Swept(l: Log, todo: Pairs<Key, Entry>, why: Why): Log
    decreases |todo|
  {
    if todo == [] then l
    else if Picked(why, todo[0].1) then Swept(Left(l, todo[0].0, todo[0].1, Fate(why, todo[0].1)), todo[1..], why)
    else Swept(l, todo[1..], why)
  }

  function Sum(pending: Pairs<Key, Entry>): nat {
    if pending == [] then 0 else pending[0].1.size + Sum(pending[1..])
  }

  predicate OverBudget(l: Log) {
    l.bytes > PENDING_BYTES || |l.pending| > PENDING_ENTRIES
  }

  /** Oldest first, until the budget holds; the entry there is always exists, because the counter is the sum. */
  function Enforced(l: Log): (r: Log)
    requires l.bytes == Sum(l.pending)
    ensures !OverBudget(r)
    decreases |l.pending|
  {
    if OverBudget(l) then Enforced(Left(l, l.pending[0].0, l.pending[0].1, Reported(l.pending[0].1, BufferLimit)))
    else l
  }

  function DiffEntry(e: Event, diff: bytes): Entry {
    var tail := if |diff| > DIFF_BYTES then Utf8Tail(diff, DIFF_BYTES) else [];
    Entry(e.threadId, e.turnId, "", DiffUpdated, if tail != [] then None else Some(e), tail, |diff|,
          if tail != [] then |tail| else e.size, [diff])
  }

  function StreamEntry(e: Event, previous: Option<Entry>, delta: bytes): Entry {
    var tail := Utf8Tail((if previous.Some? then previous.value.tail else []) + delta, TAIL_BYTES);
    Entry(e.threadId, e.turnId, e.itemId, e.kind, None, tail,
          (if previous.Some? then previous.value.original else 0) + |delta|, |tail|,
          (if previous.Some? then previous.value.deltas else []) + [delta])
  }

  function NewEntry(e: Event, k: Key, text: bytes, previous: Option<Entry>): Entry {
    if k.DiffKey? then DiffEntry(e, text) else StreamEntry(e, previous, text)
  }

  /** The key an event is buffered under, and its text, when it is buffered at all. */
  function Buffered(e: Event): Option<(Key, bytes)> {
    if e.kind == AgentDelta || e.threadId == "" || TurnOf(e) == "" then None
    else if e.kind == DiffUpdated && e.diff.Some? then Some((DiffKey(e.threadId, e.turnId), e.diff.value))
    else if Streams(e) then Some((ItemKey(e.threadId, e.turnId, e.itemId, e.kind), e.delta.value))
    else None
  }

  /** `remove(key)`, then the new entry goes last. */
  function Buffering(l: Log, e: Event, k: Key, text: bytes): Log {
    var previous := Get(l.pending, k);
    var en := NewEntry(e, k, text, previous);
    Log(Put(Delete(l.pending, k), k, en),
        l.bytes - (if previous.Some? then previous.value.size else 0) + en.size,
        if k.DiffKey? && previous.Some? then l.trace + [Superseded(previous.value)] else l.trace)
  }

  function AllCleared(pending: Pairs<Key, Entry>): seq<Outcome> {
    if pending == [] then [] else [Cleared(pending[0].1)] + AllCleared(pending[1..])
  }

  function WroteTo(l: Log, e: Event): Log {
    l.(trace := l.trace + [Wrote(e)])
  }

  function BufferedIn(l: Log, e: Event, k: Key, text: bytes): (r: Log)
    requires Unique(l.pending) && l.bytes == Sum(l.pending)
    ensures !OverBudget(r)
  {
    BufferingSums(l, e, k, text);
    Enforced(Buffering(l, e, k, text))
  }

  function Recorded(l: Log, on: bool, e: Event): Log
    requires Inv(l)
  {
    if !on then Log([], 0, l.trace + AllCleared(l.pending))
    else if e.kind == AgentDelta then l
    else if e.threadId == "" || TurnOf(e) == "" then WroteTo(l, e)
    else match Buffered(e)
      case Some(kt) => BufferedIn(l, e, kt.0, kt.1)
      case None =>
        if e.kind == TurnCompleted then WroteTo(Swept(l, l.pending, TurnEnd(e.threadId, TurnOf(e))), e)
        else if e.kind == ItemCompleted && e.item.id != "" then WroteTo(Swept(l, l.pending, ItemEnd(e)), e)
        else WroteTo(l, e)
  }

  // ---- what holds between calls -------------------------------------------------------------------------------

  ghost predicate TextsWellFormed(e: Event) {
    && (e.diff.Some? ==> WellFormed(e.diff.value)) && (e.delta.Some? ==> WellFormed(e.delta.value))
  }

  function KeyOf(en: Entry): Key {
    if en.source == DiffUpdated then DiffKey(en.threadId, en.turnId)
    else ItemKey(en.threadId, en.turnId, en.itemId, en.source)
  }

  /** An entry says the truth about everything it was told. */
  ghost predicate Truthful(en: Entry) {
    && en.deltas != [] && (forall d | d in en.deltas :: WellFormed(d))
    && en.original == |Concat(en.deltas)|
    && (if en.source == DiffUpdated then
          && |en.deltas| == 1 && en.itemId == ""
          && (if |en.deltas[0]| > DIFF_BYTES then
                en.event == None && en.tail == Utf8Tail(en.deltas[0], DIFF_BYTES) && en.size == |en.tail|
              else en.event.Some? && en.event.value.diff == Some(en.deltas[0]) && en.size == en.event.value.size)
        else
          && en.itemId != "" && en.event == None
          && en.tail == Streamed(en.deltas, TAIL_BYTES) && en.size == |en.tail|)
  }

  /** An entry that left did so for a reason that loses nothing unseen. */
  ghost predicate Justified(o: Outcome) {
    match o
    case Wrote(_) => true
    case Reported(en, _) => Truthful(en)
    case Contained(en, complete) => Truthful(en) && en.source != DiffUpdated && Contains(complete, Concat(en.deltas))
    case Superseded(en) => Truthful(en) && en.source == DiffUpdated
    case Cleared(en) => Truthful(en)
  }

  ghost predicate Inv(l: Log) {
    && Unique(l.pending) && l.bytes == Sum(l.pending)
    && (forall kv | kv in l.pending :: kv.0 == KeyOf(kv.1) && Truthful(kv.1))
    && (forall o | o in l.trace :: Justified(o))
  }

  /** Everything told under the key that has left the buffer, in order. */
  function Gone(trace: seq<Outcome>, k: Key): seq<bytes> {
    if trace == [] then []
    else
      var o := trace[|trace| - 1];
      Gone(trace[..|trace| - 1], k) + (if !o.Wrote? && KeyOf(o.entry) == k then o.entry.deltas else [])
  }

  function Open(pending: Pairs<Key, Entry>, k: Key): seq<bytes> {
    match Get(pending, k) case Some(en) => en.deltas case None => []
  }

  function Ledger(l: Log, k: Key): seq<bytes> {
    Gone(l.trace, k) + Open(l.pending, k)
  }

  // ---- one entry leaving, one entry growing -------------------------------------------------------------------

  lemma {:induction false} SumDelete(pending: Pairs<Key, Entry>, k: Key)
    ensures Sum(Delete(pending, k)) ==
            Sum(pending) - match Get(pending, k) case Some(en) => en.size case None => 0
    ensures |Delete(pending, k)| == |pending| - if Has(pending, k) then 1 else 0
    ensures forall kv | kv in Delete(pending, k) :: kv in pending
  {
    if pending != [] && pending[0].0 != k {
      SumDelete(pending[1..], k);
    }
  }

  lemma {:induction false} SumAppend(pending: Pairs<Key, Entry>, k: Key, en: Entry)
    ensures Sum(pending + [(k, en)]) == Sum(pending) + en.size
  {
    if pending == [] {
      assert pending + [(k, en)] == [(k, en)];
    } else {
      assert (pending + [(k, en)])[1..] == pending[1..] + [(k, en)];
      SumAppend(pending[1..], k, en);
    }
  }

  lemma GoneStep(trace: seq<Outcome>, o: Outcome, k: Key)
    ensures Gone(trace + [o], k) ==
            Gone(trace, k) + if !o.Wrote? && KeyOf(o.entry) == k then o.entry.deltas else []
  {
    assert (trace + [o])[..|trace|] == trace;
  }

  lemma {:induction false} EntryHeld(pending: Pairs<Key, Entry>, k: Key)
    requires Has(pending, k)
    ensures (k, Get(pending, k).value) in pending
  {
    var i := FindGet(pending, k);
    assert pending[i] == (k, Get(pending, k).value);
  }

  lemma LeftKeepsInv(l: Log, k: Key, en: Entry, o: Outcome)
    requires Inv(l) && Get(l.pending, k) == Some(en) && Justified(o) && !o.Wrote? && o.entry == en
    ensures Inv(Left(l, k, en, o))
  {
    hide Justified, Truthful;
    DeleteUnique(l.pending, k);
    SumDelete(l.pending, k);
  }

  lemma LeftKeepsLedger(l: Log, k: Key, en: Entry, o: Outcome, x: Key)
    requires Inv(l) && Get(l.pending, k) == Some(en) && !o.Wrote? && o.entry == en
    ensures Ledger(Left(l, k, en, o), x) == Ledger(l, x)
  {
    hide Truthful, Justified;
    EntryHeld(l.pending, k);
    GoneStep(l.trace, o, x);
    GetDelete(l.pending, k, x);
  }

  /** A key that was removed comes back last. */
  lemma PutLast(rest: Pairs<Key, Entry>, k: Key, en: Entry)
    requires Unique(rest) && !Has(rest, k)
    ensures Put(rest, k, en) == rest + [(k, en)] && Unique(rest + [(k, en)])
    ensures Sum(rest + [(k, en)]) == Sum(rest) + en.size
  {
    PutNew(rest, k, en);
    AppendUnique(rest, k, en);
    SumAppend(rest, k, en);
  }

  lemma BufferingSums(l: Log, e: Event, k: Key, text: bytes)
    requires Unique(l.pending) && l.bytes == Sum(l.pending)
    ensures
      var after := Buffering(l, e, k, text);
      && Unique(after.pending) && after.bytes == Sum(after.pending)
      && after.pending == Delete(l.pending, k) + [(k, NewEntry(e, k, text, Get(l.pending, k)))]
  {
    hide NewEntry;
    DeleteUnique(l.pending, k);
    SumDelete(l.pending, k);
    GetDelete(l.pending, k, k);
    PutLast(Delete(l.pending, k), k, NewEntry(e, k, text, Get(l.pending, k)));
  }

  /** An entry told one more text stays truthful, and its tail is the tail of everything it was told. */
  lemma NewEntryTruthful(e: Event, k: Key, text: bytes, previous: Option<Entry>)
    requires Buffered(e) == Some((k, text)) && TextsWellFormed(e)
    requires previous.Some? ==> Truthful(previous.value) && KeyOf(previous.value) == k
    ensures
      var en := NewEntry(e, k, text, previous);
      && Truthful(en) && KeyOf(en) == k
      && en.deltas == if k.ItemKey? && previous.Some? then previous.value.deltas + [text] else [text]
  {
    hide WellFormed, Utf8Tail;
    if k.DiffKey? {
      DiffEntryTruthful(e, text);
    } else {
      StreamEntryTruthful(e, previous, text);
      if previous == None {
        assert [] + [text] == [text];
      }
    }
  }

  lemma StreamEntryTruthful(e: Event, previous: Option<Entry>, delta: bytes)
    requires (e.kind == OutputDelta || e.kind == PlanDelta) && e.itemId != "" && WellFormed(delta)
    requires previous.Some? ==> Truthful(previous.value) && previous.value.source != DiffUpdated
    ensures Truthful(StreamEntry(e, previous, delta))
  {
    hide WellFormed, Utf8Tail;
    var before := if previous.Some? then previous.value.deltas else [];
    var all := before + [delta];
    assert all[..|all| - 1] == before && all[|all| - 1] == delta;
    assert Concat(all) == Concat(before) + delta;
    assert Streamed(all, TAIL_BYTES) == Utf8Tail(Streamed(before, TAIL_BYTES) + delta, TAIL_BYTES);
  }

  lemma DiffEntryTruthful(e: Event, diff: bytes)
    requires e.kind == DiffUpdated && e.diff == Some(diff) && WellFormed(diff)
    ensures Truthful(DiffEntry(e, diff))
  {
    hide WellFormed, Utf8Tail;
    assert [diff][..0] == [];
    assert Concat([diff]) == [] + diff == diff;
    if |diff| > DIFF_BYTES {
      TailIsTight(diff, DIFF_BYTES);
    }
  }

  lemma HeldIsTruthful(l: Log, k: Key)
    requires Inv(l) && Has(l.pending, k)
    ensures var en := Get(l.pending, k).value; Truthful(en) && KeyOf(en) == k
  {
    hide Truthful, Justified;
    EntryHeld(l.pending, k);
  }

  lemma BufferingKeepsInv(l: Log, e: Event, k: Key, text: bytes)
    requires Inv(l) && Buffered(e) == Some((k, text)) && TextsWellFormed(e)
    ensures Inv(Buffering(l, e, k, text))
  {
    hide NewEntry, Justified, Truthful, Buffered, KeyOf, TextsWellFormed;
    var previous := Get(l.pending, k);
    if previous.Some? {
      HeldIsTruthful(l, k);
      SupersededJustified(previous.value, k);
    }
    NewEntryTruthful(e, k, text, previous);
    BufferingSums(l, e, k, text);
    SumDelete(l.pending, k);
  }

  lemma SupersededJustified(en: Entry, k: Key)
    requires Truthful(en) && KeyOf(en) == k
    ensures k.DiffKey? ==> Justified(Superseded(en))
  {
  }

  /** A text told under a key is added to that key's account, and to no other. */
  lemma BufferingKeepsLedger(l: Log, e: Event, k: Key, text: bytes, x: Key)
    requires Inv(l) && Buffered(e) == Some((k, text)) && TextsWellFormed(e)
    ensures Ledger(Buffering(l, e, k, text), x) == Ledger(l, x) + if x == k then [text] else []
  {
    hide NewEntry, Justified, Truthful, Buffered;
    var previous := Get(l.pending, k);
    if previous.Some? {
      HeldIsTruthful(l, k);
      GoneStep(l.trace, Superseded(previous.value), x);
    }
    NewEntryTruthful(e, k, text, previous);
    GetDelete(l.pending, k, x);
    GetPut(Delete(l.pending, k), k, NewEntry(e, k, text, previous), x);
  }

  // ---- the loops ----------------------------------------------------------------------------------------------

  lemma ReportJustified(en: Entry, why: Reason)
    requires Truthful(en)
    ensures Justified(Reported(en, why))
  {
  }

  lemma {:induction false} EnforcedKeeps(l: Log, x: Key)
    requires Inv(l)
    ensures var after := Enforced(l); Inv(after) && Ledger(after, x) == Ledger(l, x)
    decreases |l.pending|
  {
    hide Justified, Truthful, Ledger, Unique, KeyOf;
    if OverBudget(l) {
      var k, en := l.pending[0].0, l.pending[0].1;
      assert l.pending[0] in l.pending;
      ReportJustified(en, BufferLimit);
      LeftKeepsInv(l, k, en, Reported(en, BufferLimit));
      LeftKeepsLedger(l, k, en, Reported(en, BufferLimit), x);
      EnforcedKeeps(Left(l, k, en, Reported(en, BufferLimit)), x);
    }
  }

  /** Only an untruncated tail, found whole in the completed item's text, is dropped unreported. */
  lemma FateJustified(why: Why, en: Entry)
    requires Truthful(en) && Picked(why, en) && (why.ItemEnd? ==> why.event.item.id != "")
    ensures Justified(Fate(why, en)) && !Fate(why, en).Wrote? && Fate(why, en).entry == en
  {
    hide WellFormed, Contains;
    if Fate(why, en).Contained? {
      StreamingIsBatch(en.deltas, TAIL_BYTES);
      FullTail(Concat(en.deltas), TAIL_BYTES);
    }
  }

  lemma FullTail(text: bytes, limit: nat)
    requires |Utf8Tail(text, limit)| == |text|
    ensures Utf8Tail(text, limit) == text
  {
    hide Cut;
  }

  ghost predicate AllHeld(l: Log, todo: Pairs<Key, Entry>) {
    Unique(todo) && forall kv | kv in todo :: Get(l.pending, kv.0) == Some(kv.1)
  }

  lemma AllHeldStep(l: Log, todo: Pairs<Key, Entry>, o: Outcome)
    requires Inv(l) && todo != [] && AllHeld(l, todo)
    ensures AllHeld(l, todo[1..]) && AllHeld(Left(l, todo[0].0, todo[0].1, o), todo[1..])
  {
    hide Truthful, Justified, KeyOf;
    forall kv | kv in todo[1..]
      ensures kv in todo && Get(Delete(l.pending, todo[0].0), kv.0) == Some(kv.1) {
      var i :| 0 <= i < |todo[1..]| && todo[1..][i] == kv;
      GetAt(todo[1..], i);
      assert todo[i + 1] == kv;
      GetDelete(l.pending, todo[0].0, kv.0);
    }
  }

  lemma {:induction false} SweptKeeps(l: Log, todo: Pairs<Key, Entry>, why: Why, x: Key)
    requires Inv(l) && AllHeld(l, todo) && (why.ItemEnd? ==> why.event.item.id != "")
    ensures var after := Swept(l, todo, why); Inv(after) && Ledger(after, x) == Ledger(l, x)
    ensures Swept(l, todo, why).bytes <= l.bytes && |Swept(l, todo, why).pending| <= |l.pending|
    decreases |todo|
  {
    hide Inv, AllHeld, Picked, Fate, Ledger, Truthful, Justified;
    if todo != [] {
      var k, en := todo[0].0, todo[0].1;
      var o := Fate(why, en);
      AllHeldStep(l, todo, o);
      FirstHeld(l, todo);
      if Picked(why, en) {
        FateJustified(why, en);
        LeftKeepsInv(l, k, en, o);
        LeftKeepsLedger(l, k, en, o, x);
        SumDelete(l.pending, k);
        SweptKeeps(Left(l, k, en, o), todo[1..], why, x);
      } else {
        SweptKeeps(l, todo[1..], why, x);
      }
    }
  }

  lemma FirstHeld(l: Log, todo: Pairs<Key, Entry>)
    requires Inv(l) && todo != [] && AllHeld(l, todo)
    ensures Get(l.pending, todo[0].0) == Some(todo[0].1) && Truthful(todo[0].1)
  {
    hide Truthful, Justified;
    assert todo[0] in todo;
    HeldIsTruthful(l, todo[0].0);
  }

  lemma SelfHeld(l: Log)
    requires Inv(l)
    ensures AllHeld(l, l.pending)
  {
    hide Truthful, Justified, KeyOf;
    forall kv | kv in l.pending ensures Get(l.pending, kv.0) == Some(kv.1) {
      var i :| 0 <= i < |l.pending| && l.pending[i] == kv;
      GetAt(l.pending, i);
    }
  }

  lemma {:induction false} ClearedLedger(trace: seq<Outcome>, pending: Pairs<Key, Entry>, x: Key)
    requires Unique(pending) && forall kv | kv in pending :: kv.0 == KeyOf(kv.1)
    ensures Gone(trace + AllCleared(pending), x) == Gone(trace, x) + Open(pending, x)
    decreases |pending|
  {
    hide KeyOf, Gone;
    if pending == [] {
      assert trace + AllCleared(pending) == trace;
    } else {
      var first := Cleared(pending[0].1);
      Associate(trace, [first], AllCleared(pending[1..]));
      assert pending[0] in pending && forall kv | kv in pending[1..] :: kv in pending;
      ClearedLedger(trace + [first], pending[1..], x);
      GoneStep(trace, first, x);
      if pending[0].0 == x {
        assert Open(pending[1..], x) == [];
      }
    }
  }

  lemma {:induction false} ClearedJustified(pending: Pairs<Key, Entry>)
    requires forall kv | kv in pending :: Truthful(kv.1)
    ensures forall o | o in AllCleared(pending) :: Justified(o)
  {
    hide Truthful;
    if pending != [] {
      assert pending[0] in pending && forall kv | kv in pending[1..] :: kv in pending;
      ClearedJustified(pending[1..]);
    }
  }

  lemma WroteKeeps(l: Log, e: Event, x: Key)
    requires Inv(l)
    ensures Inv(WroteTo(l, e)) && Ledger(WroteTo(l, e), x) == Ledger(l, x)
  {
    hide Truthful, KeyOf, Unique;
    GoneStep(l.trace, Wrote(e), x);
  }

  // ---- one event, and whole runs ------------------------------------------------------------------------------

  /** What an event tells the buffer under the key. */
  function Told(on: bool, e: Event, x: Key): seq<bytes> {
    match Buffered(e) case Some(kt) => if on && kt.0 == x then [kt.1] else [] case None => []
  }

  /** Recording keeps the buffer truthful and within budget, and adds exactly what was told to the account. */
  lemma RecordKeeps(l: Log, on: bool, e: Event, x: Key)
    requires Inv(l) && !OverBudget(l) && TextsWellFormed(e)
    ensures
      var after := Recorded(l, on, e);
      Inv(after) && !OverBudget(after) && Ledger(after, x) == Ledger(l, x) + Told(on, e, x)
  {
    hide Inv, Ledger, Buffered, TextsWellFormed, Swept, Enforced, Buffering;
    if !on {
      ClearKeeps(l, x);
    } else if Buffered(e).Some? {
      var (k, text) := Buffered(e).value;
      BufferedReached(e);
      BufferingKeepsInv(l, e, k, text);
      BufferingKeepsLedger(l, e, k, text, x);
      EnforcedKeeps(Buffering(l, e, k, text), x);
    } else {
      WroteKeeps(l, e, x);
      SelfHeld(l);
      if e.kind == TurnCompleted {
        SweptKeeps(l, l.pending, TurnEnd(e.threadId, TurnOf(e)), x);
        WroteKeeps(Swept(l, l.pending, TurnEnd(e.threadId, TurnOf(e))), e, x);
      } else if e.kind == ItemCompleted && e.item.id != "" {
        SweptKeeps(l, l.pending, ItemEnd(e), x);
        WroteKeeps(Swept(l, l.pending, ItemEnd(e)), e, x);
      }
    }
  }

  lemma BufferedReached(e: Event)
    requires Buffered(e).Some?
    ensures e.kind != AgentDelta && e.threadId != "" && TurnOf(e) != ""
  {
  }

  lemma ClearKeeps(l: Log, x: Key)
    requires Inv(l)
    ensures
      var after := Log([], 0, l.trace + AllCleared(l.pending));
      Inv(after) && !OverBudget(after) && Ledger(after, x) == Ledger(l, x)
  {
    hide Truthful, Justified, KeyOf;
    ClearedLedger(l.trace, l.pending, x);
    ClearedJustified(l.pending);
  }

  /** `flush()` with no arguments: the session ended. */
  datatype Input = Record(on: bool, event: Event) | Flush(on: bool)

  ghost predicate InputsWellFormed(inputs: seq<Input>) {
    forall i | i in inputs && i.Record? :: TextsWellFormed(i.event)
  }

  ghost function After(inputs: seq<Input>): (l: Log)
    requires InputsWellFormed(inputs)
    ensures Inv(l) && !OverBudget(l)
  {
    if inputs == [] then Log([], 0, [])
    else
      var before := After(inputs[..|inputs| - 1]);
      match inputs[|inputs| - 1]
      case Record(on, e) => RecordKeeps(before, on, e, DiffKey("", "")); Recorded(before, on, e)
      case Flush(on) => (
        SelfHeld(before); SweptKeeps(before, before.pending, SessionEnd(on), DiffKey("", ""));
        Swept(before, before.pending, SessionEnd(on)))
  }

  /** Everything told under the key over the run, in order. */
  function AllTold(inputs: seq<Input>, x: Key): seq<bytes> {
    if inputs == [] then []
    else
      AllTold(inputs[..|inputs| - 1], x) +
      match inputs[|inputs| - 1] case Record(on, e) => Told(on, e, x) case Flush(_) => []
  }

  /**
   * Over every run, for every stream: what was told is exactly what has left (reported, contained, superseded or
   * cleared, each for a justified reason) followed by what is still pending, in the order it was told; and the
   * buffer is within its budget after every call.
   */
  lemma {:induction false} NothingUnaccounted(inputs: seq<Input>, x: Key)
    requires InputsWellFormed(inputs)
    ensures AllTold(inputs, x) == Ledger(After(inputs), x)
    ensures After(inputs).bytes <= PENDING_BYTES && |After(inputs).pending| <= PENDING_ENTRIES
    ensures Inv(After(inputs))
  {
    hide Inv, Recorded, Swept;
    if inputs == [] {
    } else {
      var earlier, last := inputs[..|inputs| - 1], inputs[|inputs| - 1];
      NothingUnaccounted(earlier, x);
      match last {
        case Record(on, e) => RecordKeeps(After(earlier), on, e, x);
        case Flush(on) =>
          SelfHeld(After(earlier));
          SweptKeeps(After(earlier), After(earlier).pending, SessionEnd(on), x);
      }
    }
  }

  /** A stream's report carries the tail of all it was told, and counts every byte as retained or omitted. */
  lemma ReportAddsUp(en: Entry, why: Reason)
    requires Justified(Reported(en, why)) && en.source != DiffUpdated
    ensures
      var told := Concat(en.deltas);
      && |Output(Reported(en, why))| == 1
      && var w := Output(Reported(en, why))[0];
      && w.Compacted? && w.tail == Utf8Tail(told, TAIL_BYTES) && WellFormed(w.tail)
      && w.original == |told| == w.retained + w.omitted && w.retained == |w.tail|
      && Min(|told|, TAIL_BYTES) - 3 <= w.retained <= TAIL_BYTES
      && (|told| <= TAIL_BYTES ==> w.omitted == 0 && w.tail == told)
  {
    hide Utf8Tail, WellFormed;
    StreamingIsBatch(en.deltas, TAIL_BYTES);
    ConcatWellFormed(en.deltas);
    TailIsTight(Concat(en.deltas), TAIL_BYTES);
  }

  // ---- who leaves ---------------------------------------------------------------------------------------------

  /** The entries that stay, and what becomes of the ones that do not. */
  function Stay(todo: Pairs<Key, Entry>, why: Why): Pairs<Key, Entry> {
    if todo == [] then []
    else (if Picked(why, todo[0].1) then [] else [todo[0]]) + Stay(todo[1..], why)
  }

  function Fates(todo: Pairs<Key, Entry>, why: Why): seq<Outcome> {
    if todo == [] then []
    else (if Picked(why, todo[0].1) then [Fate(why, todo[0].1)] else []) + Fates(todo[1..], why)
  }

  /** The loops take out exactly the entries they pick, oldest first, and leave the others in their order. */
  lemma SweptExactly(l: Log, why: Why)
    requires Inv(l)
    ensures Swept(l, l.pending, why).pending == Stay(l.pending, why)
    ensures Swept(l, l.pending, why).trace == l.trace + Fates(l.pending, why)
  {
    SweptRest(l, [], l.pending, why);
  }

  lemma {:induction false} SweptRest(l: Log, kept: Pairs<Key, Entry>, todo: Pairs<Key, Entry>, why: Why)
    requires Unique(l.pending) && l.pending == kept + todo
    ensures Swept(l, todo, why).pending == kept + Stay(todo, why)
    ensures Swept(l, todo, why).trace == l.trace + Fates(todo, why)
    decreases |todo|
  {
    hide Picked, Fate, Delete, Unique;
    if todo == [] {
      assert kept + Stay(todo, why) == kept;
    } else if Picked(why, todo[0].1) {
      var o := Fate(why, todo[0].1);
      DeleteMiddle(kept, todo);
      SweptRest(Left(l, todo[0].0, todo[0].1, o), kept, todo[1..], why);
      Associate(l.trace, [o], Fates(todo[1..], why));
    } else {
      assert kept + todo == kept + [todo[0]] + todo[1..];
      SweptRest(l, kept + [todo[0]], todo[1..], why);
      Associate(kept, [todo[0]], Stay(todo[1..], why));
    }
  }

  lemma DeleteMiddle(kept: Pairs<Key, Entry>, todo: Pairs<Key, Entry>)
    requires todo != [] && Unique(kept + todo)
    ensures Delete(kept + todo, todo[0].0) == kept + todo[1..] && Unique(kept + todo[1..])
  {
    hide Delete, Unique;
    var all := kept + todo;
    DeleteAt(all, |kept|);
    DeleteUnique(all, todo[0].0);
    assert all[..|kept|] == kept && all[|kept| + 1..] == todo[1..];
  }

  /** The budget is enforced by reporting the shortest oldest-first prefix that restores it. */
  lemma {:induction false} EnforcedDropsLeast(l: Log) returns (n: nat)
    requires l.bytes == Sum(l.pending)
    ensures n <= |l.pending| && Enforced(l).pending == l.pending[n..]
    ensures Enforced(l).bytes == Sum(l.pending[n..])
    ensures n > 0 ==> Sum(l.pending[n - 1..]) > PENDING_BYTES || |l.pending| - (n - 1) > PENDING_ENTRIES
    decreases |l.pending|
  {
    if OverBudget(l) {
      var rest := Left(l, l.pending[0].0, l.pending[0].1, Reported(l.pending[0].1, BufferLimit));
      var m := EnforcedDropsLeast(rest);
      n := m + 1;
      assert rest.pending[m..] == l.pending[n..];
      if m > 0 {
        assert rest.pending[m - 1..] == l.pending[n - 1..];
      } else {
        assert l.pending[0..] == l.pending;
      }
    } else {
      n := 0;
      assert l.pending[0..] == l.pending;
    }
  }

  // ---- the object ---------------------------------------------------------------------------------------------

  /** Everything the emitter was given. */
  function Emitted(trace: seq<Outcome>): seq<Written> {
    if trace == [] then [] else Emitted(trace[..|trace| - 1]) + Output(trace[|trace| - 1])
  }

  lemma EmittedStep(trace: seq<Outcome>, o: Outcome)
    ensures Emitted(trace + [o]) == Emitted(trace) + Output(o)
  {
    assert (trace + [o])[..|trace|] == trace;
  }

  lemma {:induction false} ClearedEmitsNothing(trace: seq<Outcome>, pending: Pairs<Key, Entry>)
    ensures Emitted(trace + AllCleared(pending)) == Emitted(trace)
    decreases |pending|
  {
    hide Emitted;
    if pending == [] {
      assert trace + AllCleared(pending) == trace;
    } else {
      var first := Cleared(pending[0].1);
      Associate(trace, [first], AllCleared(pending[1..]));
      ClearedEmitsNothing(trace + [first], pending[1..]);
      EmittedStep(trace, first);
    }
  }

  class CodexRawLog {
    var pending: Pairs<Key, Entry>
    var bytes: int
    var written: seq<Written>
    ghost var trace: seq<Outcome>

    ghost function Model(): Log
      reads this
    {
      Log(pending, bytes, trace)
    }

    ghost predicate Valid()
      reads this
    {
      Inv(Model()) && written == Emitted(trace)
    }

    constructor ()
      ensures Valid() && Model() == Log([], 0, [])
    {
      pending, bytes, written, trace := [], 0, [], [];
    }

    method Write(e: Event)
      requires Valid()
      modifies this
      ensures Valid() && Model() == WroteTo(old(Model()), e)
    {
      WroteKeeps(Model(), e, DiffKey("", ""));
      EmittedStep(trace, Wrote(e));
      written, trace := written + [Plain(e)], trace + [Wrote(e)];
    }

    method Remove(k: Key)
      modifies `pending, `bytes
      ensures pending == Delete(old(pending), k)
      ensures bytes == old(bytes) - match Get(old(pending), k) case Some(en) => en.size case None => 0
    {
      var entry := Get(pending, k);
      if entry.Some? {
        bytes := bytes - entry.value.size;
      }
      pending := Delete(pending, k);
    }

    method FlushEntry(on: bool, k: Key, en: Entry, why: Reason)
      requires Valid() && Get(pending, k) == Some(en)
      modifies this
      ensures Valid()
      ensures Model() == Left(old(Model()), k, en, if on then Reported(en, why) else Cleared(en))
    {
      hide Inv, Truthful, Emitted;
      ghost var o := if on then Reported(en, why) else Cleared(en);
      HeldIsTruthful(Model(), k);
      ReportJustified(en, why);
      LeftKeepsInv(Model(), k, en, o);
      EmittedStep(trace, o);
      Remove(k);
      if on {
        if en.event.Some? {
          written := written + [Plain(en.event.value)];
        } else {
          written := written + [Compacted(en.threadId, en.turnId, en.itemId, en.source, why, en.tail, en.original,
                                          en.size, en.original - en.size)];
        }
      }
      trace := trace + [o];
    }

    method EnforceBudget()
      requires Valid()
      modifies this
      ensures Valid() && Model() == Enforced(old(Model())) && !OverBudget(Model())
    {
      while bytes > PENDING_BYTES || |pending| > PENDING_ENTRIES
        invariant Valid() && Enforced(Model()) == Enforced(old(Model()))
        decreases |pending|
      {
        var (k, en) := pending[0];
        FlushEntry(true, k, en, BufferLimit);
      }
    }

    /** `turn` is the turn that completed; without one the session ended. */
    method Flush(turn: Option<(string, string)>, on: bool)
      requires Valid() && (turn.Some? ==> on)
      modifies this
      ensures Valid()
      ensures
        var why := if turn.Some? then TurnEnd(turn.value.0, turn.value.1) else SessionEnd(on);
        Model() == Swept(old(Model()), old(pending), why)
    {
      ghost var why := if turn.Some? then TurnEnd(turn.value.0, turn.value.1) else SessionEnd(on);
      var todo := pending;
      SelfHeld(Model());
      while todo != []
        invariant Valid() && AllHeld(Model(), todo)
        invariant Swept(Model(), todo, why) == Swept(old(Model()), old(pending), why)
        decreases |todo|
      {
        var (k, en) := todo[0];
        AllHeldStep(Model(), todo, Fate(why, en));
        FirstHeld(Model(), todo);
        if turn.None? || (en.threadId == turn.value.0 && en.turnId == turn.value.1) {
          FlushEntry(on, k, en, if turn.None? then SessionEnded else TurnDone);
        }
        todo := todo[1..];
      }
    }

    method CompleteItem(e: Event)
      requires Valid() && e.item.id != ""
      modifies this
      ensures Valid() && Model() == Swept(old(Model()), old(pending), ItemEnd(e))
    {
      hide Inv, AllHeld, Justified, Truthful, Emitted;
      var todo := pending;
      SelfHeld(Model());
      while todo != []
        invariant Valid() && AllHeld(Model(), todo)
        invariant Swept(Model(), todo, ItemEnd(e)) == Swept(old(Model()), old(pending), ItemEnd(e))
        decreases |todo|
      {
        var (k, en) := todo[0];
        AllHeldStep(Model(), todo, Fate(ItemEnd(e), en));
        FirstHeld(Model(), todo);
        assert Picked(ItemEnd(e), en) ==> Justified(Fate(ItemEnd(e), en)) by {
          if Picked(ItemEnd(e), en) {
            FateJustified(ItemEnd(e), en);
          }
        }
        if en.threadId == e.threadId && en.turnId == e.turnId && en.itemId == e.item.id {
          var complete := if en.source == PlanDelta then e.item.text else e.item.output;
          if en.original == en.size && complete.Some? && Contains(complete.value, en.tail) {
            Drop(k, en, complete.value);
          } else {
            FlushEntry(true, k, en, ItemDone);
          }
        }
        todo := todo[1..];
      }
    }

    /** The completed item contains the whole of it: removed, nothing written. */
    method Drop(k: Key, en: Entry, complete: bytes)
      requires Valid() && Get(pending, k) == Some(en) && Justified(Contained(en, complete))
      modifies this
      ensures Valid() && Model() == Left(old(Model()), k, en, Contained(en, complete))
    {
      LeftKeepsInv(Model(), k, en, Contained(en, complete));
      EmittedStep(trace, Contained(en, complete));
      Remove(k);
      trace := trace + [Contained(en, complete)];
    }

    method BufferText(e: Event, k: Key, text: bytes)
      requires Valid() && Buffered(e) == Some((k, text)) && TextsWellFormed(e)
      modifies this
      ensures Valid() && Model() == BufferedIn(old(Model()), e, k, text)
    {
      hide Inv, Enforced, Utf8Tail, Buffered, Delete, Put, Get, Emitted;
      BufferingKeepsInv(Model(), e, k, text);
      var previous := Get(pending, k);
      Remove(k);
      var tail, original, size;
      if k.DiffKey? {
        original := |text|;
        if original > DIFF_BYTES {
          tail := TailOf(text, DIFF_BYTES);
        } else {
          tail := [];
        }
        size := if tail != [] then |tail| else e.size;
        if previous.Some? {
          EmittedStep(trace, Superseded(previous.value));
          trace := trace + [Superseded(previous.value)];
        }
        pending := Put(pending, k, Entry(e.threadId, e.turnId, "", DiffUpdated,
                                         if tail != [] then None else Some(e), tail, original, size, [text]));
      } else {
        original := (if previous.Some? then previous.value.original else 0) + |text|;
        tail := TailOf((if previous.Some? then previous.value.tail else []) + text, TAIL_BYTES);
        size := |tail|;
        pending := Put(pending, k, Entry(e.threadId, e.turnId, e.itemId, e.kind, None, tail, original, size,
                                         (if previous.Some? then previous.value.deltas else []) + [text]));
      }
      bytes := bytes + size;
      EnforceBudget();
    }

    method Record(on: bool, e: Event)
      requires Valid() && !OverBudget(Model()) && TextsWellFormed(e)
      modifies this
      ensures Valid() && !OverBudget(Model()) && Model() == Recorded(old(Model()), on, e)
    {
      hide Inv, Enforced, Swept, BufferedIn, Emitted, AllCleared, Ledger, Told, OverBudget;
      RecordKeeps(Model(), on, e, DiffKey("", ""));
      if !on {
        ClearedEmitsNothing(trace, pending);
        trace := trace + AllCleared(pending);
        pending, bytes := [], 0;
        return;
      }
      if e.kind == AgentDelta {
        return;
      }
      var turnId := if e.kind == TurnCompleted then e.turn else e.turnId;
      if e.threadId == "" || turnId == "" {
        Write(e);
        return;
      }
      if e.kind == TurnCompleted {
        Flush(Some((e.threadId, turnId)), true);
      } else if e.kind == ItemCompleted && e.item.id != "" {
        CompleteItem(e);
      } else if e.kind == DiffUpdated && e.diff.Some? {
        BufferText(e, DiffKey(e.threadId, turnId), e.diff.value);
        return;
      } else if (e.kind == OutputDelta || e.kind == PlanDelta) && e.itemId != "" && e.delta.Some? {
        BufferText(e, ItemKey(e.threadId, turnId, e.itemId, e.kind), e.delta.value);
        return;
      }
      Write(e);
    }
  }
}
