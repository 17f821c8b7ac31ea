/**
 * End-to-end delivery (`daemon/connection.ts`, `daemon/diskJournal.ts:164-174`): journals that append, acknowledge
 * and compact, one client that attaches, detaches, sends commands and reads at its own pace. Whatever the
 * interleaving, each attach receives a prefix of what it is owed, in order, and the queues stay within their bounds.
 */
module Delivery {
  import opened Common
  import opened Wire
  import opened LogParser
  import opened OrderedMap
  import opened MemoryJournal
  import opened Connections
  import DiskRequests

  // ---- what an attach is owed ---------------------------------------------------------------------------------

  predicate IsOn(f: Frame, ch: Channel) {
    !f.ControlFrame? && f.ch == ch
  }

  /** The frames of one channel among those sent. */
  function OnChannel(wire: seq<Frame>, ch: Channel): seq<Frame> {
    if wire == [] then [] else
      OnChannel(wire[..|wire| - 1], ch) + (if IsOn(wire[|wire| - 1], ch) then [wire[|wire| - 1]] else [])
  }

  function LiveFrames(ch: Channel, es: seq<Entry>): seq<Frame> {
    if es == [] then [] else LiveFrames(ch, es[..|es| - 1]) + [EventFrame(ch, es[|es| - 1], false, false)]
  }

  /** The backlog of the attach, then every event appended since. */
  function Owed(ch: Channel, a: Attach): seq<Frame> {
    Pending(ch, NewSub(ch, a.journal, a.afterSeq, a.wireAt)) + LiveFrames(ch, a.appended)
  }

  function SentSince(c: Conn, ch: Channel, a: Attach): seq<Frame>
    requires a.wireAt <= |c.wire|
  {
    OnChannel(c.wire[a.wireAt..], ch)
  }

  /** What was sent and what still waits are together exactly what is owed. */
  ghost predicate SubOk(c: Conn, ch: Channel) {
    match Get(c.subs, ch)
    case None => true
    case Some(s) =>
      && s.attach.wireAt <= |c.wire|
      && (s.resync.Some? ==> IsOn(s.resync.value, ch))
      && SentSince(c, ch, s.attach) + Pending(ch, s) == Owed(ch, s.attach)
  }

  ghost predicate QueuesOk(c: Conn) {
    Unique(c.subs) && (forall f | f in c.control :: f.ControlFrame?) && forall ch :: SubOk(c, ch)
  }

  // ---- sending ------------------------------------------------------------------------------------------------

  lemma OnChannelSnoc(wire: seq<Frame>, f: Frame, ch: Channel)
    ensures OnChannel(wire + [f], ch) == OnChannel(wire, ch) + if IsOn(f, ch) then [f] else []
  {
    assert (wire + [f])[..|wire|] == wire;
  }

  lemma PendingOn(ch: Channel, s: Sub)
    requires s.resync.Some? ==> IsOn(s.resync.value, ch)
    requires Pending(ch, s) != []
    ensures IsOn(Pending(ch, s)[0], ch)
  {
  }

  /** One frame handed to the socket moves from what waits to what was sent. */
  lemma SentKeepsSub(cfg: Config, c: Conn, x: Channel)
    requires Unique(c.subs) && Sent(cfg, c).Some? && SubOk(c, x)
    requires forall f | f in c.control :: f.ControlFrame?
    requires c.control == [] && Served(c.subs).Some? ==> SubOk(c, Served(c.subs).value.0)
    ensures SubOk(Sent(cfg, c).value, x)
  {
    var d := Sent(cfg, c).value;
    if Has(c.subs, x) {
      SentOnWire(c, d, x);
      if c.control == [] {
        ChannelFrameKeepsSub(c, d, x);
      } else {
        assert c.control[0] in c.control;
        assert d.subs == c.subs;
      }
    } else if c.control == [] {
      ServedGet(c.subs, x);
    }
  }

  lemma SentOnWire(c: Conn, d: Conn, x: Channel)
    requires |d.wire| == |c.wire| + 1 && d.wire[..|c.wire|] == c.wire
    requires Has(c.subs, x) && Get(c.subs, x).value.attach.wireAt <= |c.wire|
    ensures
      var a, f := Get(c.subs, x).value.attach, d.wire[|c.wire|];
      SentSince(d, x, a) == SentSince(c, x, a) + if IsOn(f, x) then [f] else []
  {
    var at, f := Get(c.subs, x).value.attach.wireAt, d.wire[|c.wire|];
    assert d.wire == c.wire + [f];
    assert d.wire[at..] == c.wire[at..] + [f];
    OnChannelSnoc(c.wire[at..], f, x);
  }

  lemma ChannelFrameKeepsSub(c: Conn, d: Conn, x: Channel)
    requires Unique(c.subs) && Served(c.subs).Some? && Has(c.subs, x) && SubOk(c, x)
    requires d.subs == Served(c.subs).value.2 && d.wire == c.wire + [Served(c.subs).value.1]
    requires SubOk(c, Served(c.subs).value.0)
    requires
      var a := Get(c.subs, x).value.attach;
      SentSince(d, x, a) == SentSince(c, x, a)
        + if IsOn(Served(c.subs).value.1, x) then [Served(c.subs).value.1] else []
    ensures SubOk(d, x)
  {
    hide Served, Owed, Pending, SentSince, Unique;
    var (ch, g, after) := Served(c.subs).value;
    ServedGet(c.subs, x);
    PendingOn(ch, Get(c.subs, ch).value);
    ServedResync(c.subs);
    if x == ch {
      Associate(SentSince(c, x, Get(c.subs, x).value.attach), [g], Pending(ch, Get(after, ch).value));
    }
  }

  lemma ServedResync(subs: Pairs<Channel, Sub>)
    requires Unique(subs) && Served(subs).Some?
    ensures
      var (ch, f, after) := Served(subs).value;
      Has(after, ch) && Get(after, ch).value.resync.None?
  {
    var i := FirstReady(subs);
    var ch, s := subs[i].0, subs[i].1;
    GetPut(subs, ch, s.(resync := None), ch);
    if s.resync.None? {
      GetPut(Delete(subs, ch), ch, s.(queue := s.queue[1..]), ch);
    }
  }

  lemma SentKeepsQueues(cfg: Config, c: Conn)
    requires QueuesOk(c) && Sent(cfg, c).Some?
    ensures QueuesOk(Sent(cfg, c).value)
  {
    SentShrinks(cfg, c);
    forall x
      ensures SubOk(Sent(cfg, c).value, x)
    {
      SentKeepsSub(cfg, c, x);
    }
  }

  /** The attaches a connection has, and what each saw, are the same before and after. */
  ghost predicate SameAttaches(c: Conn, d: Conn) {
    && d.dead == c.dead && d.leaked == c.leaked
    && forall ch :: Has(d.subs, ch) == Has(c.subs, ch)
         && (Has(c.subs, ch) ==> Get(d.subs, ch).value.attach == Get(c.subs, ch).value.attach)
  }

  lemma SentAttaches(cfg: Config, c: Conn)
    requires Unique(c.subs) && Sent(cfg, c).Some?
    ensures SameAttaches(c, Sent(cfg, c).value)
  {
    if c.control == [] {
      forall ch
        ensures Has(Sent(cfg, c).value.subs, ch) == Has(c.subs, ch)
        ensures Has(c.subs, ch) ==> Get(Sent(cfg, c).value.subs, ch).value.attach == Get(c.subs, ch).value.attach
      {
        ServedGet(c.subs, ch);
      }
    }
  }

  lemma {:induction false} PumpKeepsQueues(cfg: Config, c: Conn)
    requires QueuesOk(c)
    ensures QueuesOk(Pumped(cfg, c)) && SameAttaches(c, Pumped(cfg, c))
    decreases Backlog(c)
  {
    hide QueuesOk, Sent;
    if c.buffered < SOCKET_HIGH_WATER && Sent(cfg, c).Some? {
      var d := Sent(cfg, c).value;
      QueuesUnique(c);
      SentShrinks(cfg, c);
      SentKeepsQueues(cfg, c);
      SentAttaches(cfg, c);
      PumpKeepsQueues(cfg, d);
    }
  }

  lemma QueuesUnique(c: Conn)
    requires QueuesOk(c)
    ensures UniqueSubs(c)
  {
  }

  // ---- arrivals, attaches, detaches ---------------------------------------------------------------------------

  lemma {:induction false} FramesOfAppend(ch: Channel, a: seq<QueueItem>, b: seq<QueueItem>)
    ensures FramesOf(ch, a + b) == FramesOf(ch, a) + FramesOf(ch, b)
  {
    if a == [] {
      assert a + b == b;
    } else {
      assert (a + b)[1..] == a[1..] + b;
      FramesOfAppend(ch, a[1..], b);
    }
  }

  lemma ArrivalKeepsQueues(cfg: Config, c: Conn, ch: Channel, entry: Entry)
    requires QueuesOk(c) && Has(c.subs, ch)
    ensures QueuesOk(LiveQueuedOn(cfg, c, ch, entry))
  {
    var s, item := Get(c.subs, ch).value, QueueItem(entry, true, false);
    var a := s.attach.(appended := s.attach.appended + [entry]);
    var t := s.(queue := s.queue + [item], attach := a);
    var d := LiveQueuedOn(cfg, c, ch, entry);
    PutUnique(c.subs, ch, t);
    forall x
      ensures SubOk(d, x)
    {
      GetPut(c.subs, ch, t, x);
      assert SubOk(c, x);
      if x == ch {
        ArrivalOwed(ch, s, entry);
        Associate(SentSince(c, ch, s.attach), Pending(ch, s), [FrameOf(ch, item)]);
      }
    }
  }

  lemma ArrivalOwed(ch: Channel, s: Sub, entry: Entry)
    ensures
      var item := QueueItem(entry, true, false);
      var a := s.attach.(appended := s.attach.appended + [entry]);
      var t := s.(queue := s.queue + [item], attach := a);
      && Pending(ch, t) == Pending(ch, s) + [FrameOf(ch, item)]
      && Owed(ch, a) == Owed(ch, s.attach) + [FrameOf(ch, item)]
  {
    var item := QueueItem(entry, true, false);
    FramesOfAppend(ch, s.queue, [item]);
    assert [item][1..] == [];
    assert (s.attach.appended + [entry])[..|s.attach.appended|] == s.attach.appended;
  }

  lemma AttachKeepsQueues(cfg: Config, c: Conn, ch: Channel, j: Journal, afterSeq: nat)
    requires QueuesOk(c)
    ensures QueuesOk(Attached(cfg, c, ch, j, afterSeq))
  {
    var t := NewSub(ch, j, afterSeq, |c.wire|);
    PutUnique(c.subs, ch, t);
    forall x
      ensures SubOk(Attached(cfg, c, ch, j, afterSeq), x)
    {
      GetPut(c.subs, ch, t, x);
      assert SubOk(c, x);
      if x == ch {
        assert c.wire[|c.wire|..] == [];
        assert [] + Pending(ch, t) == Pending(ch, t) + [];
      }
    }
  }

  lemma DetachKeepsQueues(cfg: Config, c: Conn, ch: Channel)
    requires QueuesOk(c)
    ensures QueuesOk(DetachedFrom(cfg, c, ch))
  {
    DeleteUnique(c.subs, ch);
    forall x
      ensures SubOk(DetachedFrom(cfg, c, ch), x)
    {
      GetDelete(c.subs, ch, x);
      assert SubOk(c, x);
    }
  }

  /** A change to the counters and the control queue alone. */
  lemma SameQueues(c: Conn, d: Conn)
    requires QueuesOk(c) && d.subs == c.subs && d.wire == c.wire && forall f | f in d.control :: f.ControlFrame?
    ensures QueuesOk(d)
  {
    forall x
      ensures SubOk(d, x)
    {
      assert SubOk(c, x);
    }
  }

  // ---- byte bounds --------------------------------------------------------------------------------------------

  /** The counters are exact, but for the live bytes of dropped queues, which stay counted for ever. */
  ghost predicate CountersOk(cfg: Config, c: Conn) {
    && c.controlBytes == Bytes(cfg, c.control)
    && c.liveBytes == LiveQueued(cfg, c.subs) + c.leaked
  }

  /** An open connection queues at most `maxOutboundBytes` of control replies and of live events; a closed one none. */
  ghost predicate WithinBounds(cfg: Config, c: Conn) {
    if c.dead then c.subs == [] && c.control == []
    else CountersOk(cfg, c) && c.controlBytes <= cfg.maxOutboundBytes && c.liveBytes <= cfg.maxOutboundBytes
  }

  lemma {:induction false} LiveQueuedPut(cfg: Config, m: Pairs<Channel, Sub>, ch: Channel, s: Sub)
    ensures LiveQueued(cfg, Put(m, ch, s)) + (if Has(m, ch) then LiveIn(cfg, ch, Get(m, ch).value.queue) else 0)
         == LiveQueued(cfg, m) + LiveIn(cfg, ch, s.queue)
  {
    if m != [] && m[0].0 != ch {
      LiveQueuedPut(cfg, m[1..], ch, s);
    }
  }

  lemma {:induction false} LiveQueuedDelete(cfg: Config, m: Pairs<Channel, Sub>, ch: Channel)
    ensures LiveQueued(cfg, Delete(m, ch)) + (if Has(m, ch) then LiveIn(cfg, ch, Get(m, ch).value.queue) else 0)
         == LiveQueued(cfg, m)
  {
    if m != [] && m[0].0 != ch {
      LiveQueuedDelete(cfg, m[1..], ch);
    }
  }

  lemma {:induction false} LiveInAppend(cfg: Config, ch: Channel, a: seq<QueueItem>, b: seq<QueueItem>)
    ensures LiveIn(cfg, ch, a + b) == LiveIn(cfg, ch, a) + LiveIn(cfg, ch, b)
  {
    if a == [] {
      assert a + b == b;
    } else {
      assert (a + b)[1..] == a[1..] + b;
      LiveInAppend(cfg, ch, a[1..], b);
    }
  }

  lemma {:induction false} BytesAppend(cfg: Config, a: seq<Frame>, b: seq<Frame>)
    ensures Bytes(cfg, a + b) == Bytes(cfg, a) + Bytes(cfg, b)
  {
    if a == [] {
      assert a + b == b;
    } else {
      assert (a + b)[1..] == a[1..] + b;
      BytesAppend(cfg, a[1..], b);
    }
  }

  lemma SentKeepsCounters(cfg: Config, c: Conn)
    requires Unique(c.subs) && CountersOk(cfg, c) && Sent(cfg, c).Some?
    ensures CountersOk(cfg, Sent(cfg, c).value)
    ensures Sent(cfg, c).value.controlBytes <= c.controlBytes && Sent(cfg, c).value.liveBytes <= c.liveBytes
  {
    if c.control == [] {
      var i := FirstReady(c.subs);
      var ch, s := c.subs[i].0, c.subs[i].1;
      GetAt(c.subs, i);
      if s.resync.Some? {
        LiveQueuedPut(cfg, c.subs, ch, s.(resync := None));
      } else {
        var t := s.(queue := s.queue[1..]);
        LiveQueuedDelete(cfg, c.subs, ch);
        GetDelete(c.subs, ch, ch);
        LiveQueuedPut(cfg, Delete(c.subs, ch), ch, t);
      }
    }
  }

  lemma {:induction false} PumpKeepsCounters(cfg: Config, c: Conn)
    requires UniqueSubs(c) && CountersOk(cfg, c)
    ensures
      var p := Pumped(cfg, c);
      CountersOk(cfg, p) && p.controlBytes <= c.controlBytes && p.liveBytes <= c.liveBytes && p.dead == c.dead
    decreases Backlog(c)
  {
    hide Sent, CountersOk, UniqueSubs;
    if c.buffered < SOCKET_HIGH_WATER && Sent(cfg, c).Some? {
      SentShrinks(cfg, c);
      PumpOnceCounters(cfg, c);
      PumpKeepsCounters(cfg, Sent(cfg, c).value);
    }
  }

  lemma PumpOnceCounters(cfg: Config, c: Conn)
    requires UniqueSubs(c) && CountersOk(cfg, c) && Sent(cfg, c).Some?
    ensures
      var d := Sent(cfg, c).value;
      CountersOk(cfg, d) && d.controlBytes <= c.controlBytes && d.liveBytes <= c.liveBytes && d.dead == c.dead
  {
    SentKeepsCounters(cfg, c);
  }

  lemma ArrivalKeepsCounters(cfg: Config, c: Conn, ch: Channel, entry: Entry)
    requires CountersOk(cfg, c) && Has(c.subs, ch)
    ensures CountersOk(cfg, LiveQueuedOn(cfg, c, ch, entry))
  {
    var s, item := Get(c.subs, ch).value, QueueItem(entry, true, false);
    var t := s.(queue := s.queue + [item], attach := s.attach.(appended := s.attach.appended + [entry]));
    LiveQueuedPut(cfg, c.subs, ch, t);
    LiveInAppend(cfg, ch, s.queue, [item]);
    assert [item][1..] == [];
  }

  lemma {:induction false} BackfillNotLive(cfg: Config, ch: Channel, es: seq<Entry>)
    ensures LiveIn(cfg, ch, Backfill(es)) == 0
  {
    if es != [] {
      BackfillNotLive(cfg, ch, es[1..]);
    }
  }

  lemma {:induction false} ReopenedNotLive(cfg: Config, ch: Channel, open: seq<Entry>, afterSeq: nat)
    ensures LiveIn(cfg, ch, Reopened(open, afterSeq)) == 0
  {
    if open != [] {
      var rest := Reopened(open[1..], afterSeq);
      ReopenedNotLive(cfg, ch, open[1..], afterSeq);
      assert open[0].seqNo > afterSeq ==> Reopened(open, afterSeq) == rest;
      assert ([QueueItem(open[0], false, true)] + rest)[1..] == rest;
    }
  }

  /** However long the backlog, an attach queues no live bytes; what a replaced queue held leaks. */
  lemma AttachKeepsCounters(cfg: Config, c: Conn, ch: Channel, j: Journal, afterSeq: nat)
    requires CountersOk(cfg, c)
    ensures CountersOk(cfg, Attached(cfg, c, ch, j, afterSeq))
  {
    var t := NewSub(ch, j, afterSeq, |c.wire|);
    LiveQueuedPut(cfg, c.subs, ch, t);
    var es := Above(j.entries, afterSeq);
    LiveInAppend(cfg, ch, Reopened(j.checkpoint.openRequests, afterSeq), Backfill(es));
    BackfillNotLive(cfg, ch, es);
    ReopenedNotLive(cfg, ch, j.checkpoint.openRequests, afterSeq);
  }

  lemma DetachKeepsCounters(cfg: Config, c: Conn, ch: Channel)
    requires CountersOk(cfg, c)
    ensures CountersOk(cfg, DetachedFrom(cfg, c, ch))
  {
    LiveQueuedDelete(cfg, c.subs, ch);
  }

  /**
   * `liveBytes` counts exactly what is queued, after a detach, if and only if it did before and the dropped queue
   * held no live text: the original forgets to take those bytes off.
   */
  lemma DetachCountsExactly(cfg: Config, c: Conn, ch: Channel)
    requires CountersOk(cfg, c)
    ensures
      var d := DetachedFrom(cfg, c, ch);
      d.liveBytes == LiveQueued(cfg, d.subs) <==> c.liveBytes == LiveQueued(cfg, c.subs) && DroppedLive(cfg, c, ch) == 0
  {
    DetachKeepsCounters(cfg, c, ch);
  }

  /** And the same when a second attach replaces the queue. */
  lemma AttachCountsExactly(cfg: Config, c: Conn, ch: Channel, j: Journal, afterSeq: nat)
    requires CountersOk(cfg, c)
    ensures
      var d := Attached(cfg, c, ch, j, afterSeq);
      d.liveBytes == LiveQueued(cfg, d.subs) <==> c.liveBytes == LiveQueued(cfg, c.subs) && DroppedLive(cfg, c, ch) == 0
  {
    hide LiveQueued, LiveIn, Put, NewSub;
    AttachKeepsCounters(cfg, c, ch, j, afterSeq);
  }

  /**
   * An arrival closes the connection although what is queued, with it, and what the socket holds are within the bound,
   * exactly when the bytes of dropped queues make the difference.
   */
  lemma ClosedTooEarlyIff(cfg: Config, c: Conn, ch: Channel, entry: Entry)
    requires UniqueSubs(c) && CountersOk(cfg, c) && !c.dead && Has(c.subs, ch)
    ensures
      var used := LiveQueued(cfg, LiveQueuedOn(cfg, c, ch, entry).subs) + c.buffered;
      (LiveArrived(cfg, c, ch, entry).dead && used <= cfg.maxOutboundBytes)
      <==> used <= cfg.maxOutboundBytes < used + c.leaked
  {
    hide LiveQueued, LiveQueuedOn, Pumped, UniqueSubs, CountersOk;
    ArrivalKeepsCounters(cfg, c, ch, entry);
    QueuedUnique(cfg, c, ch, entry);
    ArrivalLeaks(cfg, c, ch, entry);
    PumpKeepsCounters(cfg, LiveQueuedOn(cfg, c, ch, entry));
  }

  lemma ArrivalLeaks(cfg: Config, c: Conn, ch: Channel, entry: Entry)
    requires Has(c.subs, ch) && CountersOk(cfg, LiveQueuedOn(cfg, c, ch, entry))
    ensures
      var d := LiveQueuedOn(cfg, c, ch, entry);
      d.liveBytes == LiveQueued(cfg, d.subs) + c.leaked && d.buffered == c.buffered && d.dead == c.dead
  {
  }

  // ---- the whole ----------------------------------------------------------------------------------------------

  /** `logs` is history: everything each journal was ever given, in order. */
  datatype World = World(journals: map<Channel, Journal>, conn: Conn, logs: map<Channel, seq<Entry>>)

  function LogOf(w: World, ch: Channel): seq<Entry> {
    if ch in w.logs then w.logs[ch] else []
  }

  datatype Step =
    | Append(ch: Channel, event: WireEvent, ts: int)
    | Acknowledge(ch: Channel, seqNo: int)
    | Compact(ch: Channel, now: int)
    | AttachTo(ch: Channel, afterSeq: nat)
    | Detach(ch: Channel)
    | Reply(text: string)
    | Drain(n: nat)

  ghost predicate Allowed(w: World, step: Step) {
    match step
    case Append(ch, _, _) => ch in w.journals
    case Acknowledge(ch, _) => ch in w.journals
    case Compact(ch, _) => ch in w.journals
    case AttachTo(ch, _) => ch in w.journals && !w.conn.dead
    case Detach(_) => !w.conn.dead
    case Reply(_) => true
    case Drain(n) => n <= w.conn.buffered
  }

  ghost function Next(l: Limits, cfg: Config, w: World, step: Step): World
    requires Allowed(w, step) && UniqueSubs(w.conn)
  {
    match step
    case Append(ch, event, ts) =>
      var entry := NextEntry(w.journals[ch], event, ts);
      World(w.journals[ch := Appended(l, w.journals[ch], event, ts)], LiveArrived(cfg, w.conn, ch, entry),
            w.logs[ch := LogOf(w, ch) + [entry]])
    case Acknowledge(ch, n) => w.(journals := w.journals[ch := Acked(w.journals[ch], n)])
    case Compact(ch, now) => w.(journals := w.journals[ch := Compacted(l, w.journals[ch], now)])
    case AttachTo(ch, after) => w.(conn := Attached(cfg, w.conn, ch, w.journals[ch], after))
    case Detach(ch) => w.(conn := DetachedFrom(cfg, w.conn, ch))
    case Reply(text) => w.(conn := ControlQueued(cfg, w.conn, ControlFrame(text)))
    case Drain(n) => w.(conn := Drained(cfg, w.conn, n))
  }

  ghost predicate LastOf(log: seq<Entry>, es: seq<Entry>) {
    |es| <= |log| && es == log[|log| - |es|..]
  }

  /** `appended` is exactly what the journal was given since the attach, in order, and folded into its checkpoint. */
  ghost predicate FollowsJournal(l: Limits, w: World, ch: Channel) {
    match Get(w.conn.subs, ch)
    case None => true
    case Some(s) =>
      var a := s.attach;
      && ch in w.journals && Valid(l, a.journal)
      && a.journal.lastSeq + |a.appended| == w.journals[ch].lastSeq
      && LastOf(LogOf(w, ch), a.appended)
      && w.journals[ch].checkpoint == FoldAll(l.checkpointMessages, a.journal.checkpoint, a.appended)
      && forall i | 0 <= i < |a.appended| :: a.appended[i].seqNo == a.journal.lastSeq + 1 + i
  }

  ghost predicate WorldInv(l: Limits, cfg: Config, w: World) {
    && (forall ch | ch in w.journals :: Valid(l, w.journals[ch]))
    && QueuesOk(w.conn) && WithinBounds(cfg, w.conn)
    && forall ch :: FollowsJournal(l, w, ch)
  }

  lemma PumpedOk(cfg: Config, c: Conn)
    requires QueuesOk(c) && CountersOk(cfg, c) && !c.dead
    requires c.controlBytes <= cfg.maxOutboundBytes && c.liveBytes <= cfg.maxOutboundBytes
    ensures QueuesOk(Pumped(cfg, c)) && WithinBounds(cfg, Pumped(cfg, c)) && SameAttaches(c, Pumped(cfg, c))
  {
    PumpKeepsQueues(cfg, c);
    PumpKeepsCounters(cfg, c);
  }

  lemma ClosedOk(cfg: Config, c: Conn)
    ensures QueuesOk(Closed(c)) && WithinBounds(cfg, Closed(c)) && forall ch :: !Has(Closed(c).subs, ch)
  {
  }

  lemma LiveArrivedOk(cfg: Config, c: Conn, ch: Channel, entry: Entry)
    requires QueuesOk(c) && WithinBounds(cfg, c) && !c.dead && Has(c.subs, ch)
    ensures
      var d := LiveArrived(cfg, c, ch, entry);
      QueuesOk(d) && WithinBounds(cfg, d) && ((d.dead && d.subs == []) || SameAttaches(LiveQueuedOn(cfg, c, ch, entry), d))
  {
    hide QueuesOk, CountersOk, Pumped;
    var d := LiveQueuedOn(cfg, c, ch, entry);
    ArrivalKeepsQueues(cfg, c, ch, entry);
    ArrivalKeepsCounters(cfg, c, ch, entry);
    ClosedOk(cfg, d);
    if d.liveBytes + d.buffered <= cfg.maxOutboundBytes {
      PumpedOk(cfg, d);
    }
  }

  lemma ReplyOk(cfg: Config, c: Conn, text: string)
    requires QueuesOk(c) && WithinBounds(cfg, c)
    ensures
      var d := ControlQueued(cfg, c, ControlFrame(text));
      QueuesOk(d) && WithinBounds(cfg, d) && ((d.dead && d.subs == []) || SameAttaches(c, d))
  {
    if !c.dead {
      var f := ControlFrame(text);
      var d := c.(control := c.control + [f], controlBytes := c.controlBytes + cfg.len(f));
      SameQueues(c, d);
      BytesAppend(cfg, c.control, [f]);
      assert [f][1..] == [];
      ClosedOk(cfg, d);
      if d.controlBytes <= cfg.maxOutboundBytes {
        PumpedOk(cfg, d);
      }
    }
  }

  lemma {:induction false} PumpDeadNothing(cfg: Config, c: Conn)
    requires UniqueSubs(c) && c.control == [] && c.subs == []
    ensures Pumped(cfg, c) == c
  {
  }

  // ---- every step ---------------------------------------------------------------------------------------------

  /** Whatever leaves the attaches and the journals' numbering alone. */
  lemma SameFollows(l: Limits, w: World, w': World)
    requires forall ch :: FollowsJournal(l, w, ch)
    requires forall ch | ch in w.journals ::
      ch in w'.journals && w'.journals[ch].lastSeq == w.journals[ch].lastSeq
      && w'.journals[ch].checkpoint == w.journals[ch].checkpoint
    requires SameAttaches(w.conn, w'.conn) && w'.logs == w.logs
    ensures forall ch :: FollowsJournal(l, w', ch)
  {
    forall ch
      ensures FollowsJournal(l, w', ch)
    {
      assert FollowsJournal(l, w, ch);
      assert Has(w'.conn.subs, ch) == Has(w.conn.subs, ch);
    }
  }

  lemma AppendStep(l: Limits, cfg: Config, w: World, ch: Channel, event: WireEvent, ts: int)
    requires WorldInv(l, cfg, w) && ch in w.journals
    ensures WorldInv(l, cfg, Next(l, cfg, w, Append(ch, event, ts)))
  {
    hide QueuesOk, WithinBounds, FollowsJournal;
    AppendedValid(l, w.journals[ch], event, ts);
    AppendConn(l, cfg, w, ch, event, ts);
    AppendFollows(l, cfg, w, ch, event, ts);
  }

  lemma AppendConn(l: Limits, cfg: Config, w: World, ch: Channel, event: WireEvent, ts: int)
    requires WorldInv(l, cfg, w) && ch in w.journals
    ensures
      var c := Next(l, cfg, w, Append(ch, event, ts)).conn;
      QueuesOk(c) && WithinBounds(cfg, c)
  {
    hide FollowsJournal, Valid;
    if !w.conn.dead && Has(w.conn.subs, ch) {
      LiveArrivedOk(cfg, w.conn, ch, NextEntry(w.journals[ch], event, ts));
    }
  }

  lemma AppendFollows(l: Limits, cfg: Config, w: World, ch: Channel, event: WireEvent, ts: int)
    requires WorldInv(l, cfg, w) && ch in w.journals
    ensures forall x :: FollowsJournal(l, Next(l, cfg, w, Append(ch, event, ts)), x)
  {
    hide Fold, FoldAll, Appended, Valid, LastOf, LiveQueuedOn;
    var entry := NextEntry(w.journals[ch], event, ts);
    var w' := Next(l, cfg, w, Append(ch, event, ts));
    AppendedValid(l, w.journals[ch], event, ts);
    if w.conn.dead || !Has(w.conn.subs, ch) {
      QuietFollows(l, w, w', ch);
    } else {
      LiveArrivedOk(cfg, w.conn, ch, entry);
      if w'.conn.subs != [] {
        ArrivedFollows(l, cfg, w, w', ch, entry);
      }
    }
  }

  /** An append on a channel the connection does not follow. */
  lemma QuietFollows(l: Limits, w: World, w': World, ch: Channel)
    requires (forall x :: FollowsJournal(l, w, x)) && w'.conn == w.conn && (w.conn.subs == [] || !Has(w.conn.subs, ch))
    requires forall x | x in w.journals :: x in w'.journals && (x != ch ==> w'.journals[x] == w.journals[x])
    requires forall x | x != ch :: LogOf(w', x) == LogOf(w, x)
    ensures forall x :: FollowsJournal(l, w', x)
  {
    forall x
      ensures FollowsJournal(l, w', x)
    {
      assert FollowsJournal(l, w, x);
    }
  }

  lemma ArrivedFollows(l: Limits, cfg: Config, w: World, w': World, ch: Channel, entry: Entry)
    requires (forall x :: FollowsJournal(l, w, x)) && Has(w.conn.subs, ch) && ch in w.journals
    requires entry.seqNo == w.journals[ch].lastSeq + 1
    requires forall x | x in w.journals ::
      && x in w'.journals && w'.journals[x].lastSeq == (if x == ch then entry.seqNo else w.journals[x].lastSeq)
      && w'.journals[x].checkpoint
         == (if x == ch then Fold(l.checkpointMessages, w.journals[x].checkpoint, entry) else w.journals[x].checkpoint)
    requires forall x :: LogOf(w', x) == if x == ch then LogOf(w, ch) + [entry] else LogOf(w, x)
    requires SameAttaches(LiveQueuedOn(cfg, w.conn, ch, entry), w'.conn)
    ensures forall x :: FollowsJournal(l, w', x)
  {
    hide LiveQueuedOn, Valid, LastOf, LogOf, Fold, FoldAll;
    forall x
      ensures FollowsJournal(l, w', x)
    {
      assert FollowsJournal(l, w, x);
      ArrivalAttach(cfg, w.conn, ch, entry, x);
      if x == ch {
        LastOneMore(LogOf(w, ch), Get(w.conn.subs, ch).value.attach.appended, entry);
        FoldSnoc(l.checkpointMessages, Get(w.conn.subs, ch).value.attach, entry);
      }
      assert Has(w'.conn.subs, x) == Has(LiveQueuedOn(cfg, w.conn, ch, entry).subs, x);
    }
  }

  lemma FoldSnoc(keep: nat, a: Attach, entry: Entry)
    ensures FoldAll(keep, a.journal.checkpoint, a.appended + [entry])
         == Fold(keep, FoldAll(keep, a.journal.checkpoint, a.appended), entry)
  {
    FoldAllAppend(keep, a.journal.checkpoint, a.appended, [entry]);
    assert [entry][1..] == [];
  }

  lemma LastOneMore(log: seq<Entry>, es: seq<Entry>, e: Entry)
    requires LastOf(log, es)
    ensures LastOf(log + [e], es + [e])
  {
  }

  lemma ArrivalAttach(cfg: Config, c: Conn, ch: Channel, entry: Entry, x: Channel)
    requires Has(c.subs, ch)
    ensures
      var d := LiveQueuedOn(cfg, c, ch, entry);
      && Has(d.subs, x) == Has(c.subs, x)
      && (Has(c.subs, x) ==>
            var a := Get(c.subs, x).value.attach;
            Get(d.subs, x).value.attach == if x == ch then a.(appended := a.appended + [entry]) else a)
  {
    var s, item := Get(c.subs, ch).value, QueueItem(entry, true, false);
    GetPut(c.subs, ch, s.(queue := s.queue + [item], attach := s.attach.(appended := s.attach.appended + [entry])), x);
  }

  lemma ReplyStep(l: Limits, cfg: Config, w: World, text: string)
    requires WorldInv(l, cfg, w)
    ensures WorldInv(l, cfg, Next(l, cfg, w, Reply(text)))
  {
    hide QueuesOk, CountersOk, Pumped, FollowsJournal;
    WorldUnique(l, cfg, w);
    var w' := Next(l, cfg, w, Reply(text));
    ReplyOk(cfg, w.conn, text);
    if w'.conn.subs == [] {
      NoSubsFollows(l, w');
    } else {
      SameFollows(l, w, w');
    }
  }

  lemma NoSubsFollows(l: Limits, w: World)
    requires w.conn.subs == []
    ensures forall ch :: FollowsJournal(l, w, ch)
  {
  }

  lemma DrainStep(l: Limits, cfg: Config, w: World, n: nat)
    requires WorldInv(l, cfg, w) && n <= w.conn.buffered
    ensures WorldInv(l, cfg, Next(l, cfg, w, Drain(n)))
  {
    hide QueuesOk, FollowsJournal, Pumped;
    WorldUnique(l, cfg, w);
    var w' := Next(l, cfg, w, Drain(n));
    var d := w.conn.(buffered := w.conn.buffered - n);
    QueuesControl(w.conn);
    SameQueues(w.conn, d);
    if w.conn.dead {
      QueuesUnique(d);
      PumpDeadNothing(cfg, d);
      NoSubsFollows(l, w');
    } else {
      PumpedOk(cfg, d);
      SameFollows(l, w, w');
    }
  }

  lemma QueuesControl(c: Conn)
    requires QueuesOk(c)
    ensures forall f | f in c.control :: f.ControlFrame?
  {
  }

  lemma AttachStep(l: Limits, cfg: Config, w: World, ch: Channel, after: nat)
    requires WorldInv(l, cfg, w) && Allowed(w, AttachTo(ch, after))
    ensures WorldInv(l, cfg, Next(l, cfg, w, AttachTo(ch, after)))
  {
    hide QueuesOk, CountersOk, Valid;
    WorldUnique(l, cfg, w);
    AttachKeepsQueues(cfg, w.conn, ch, w.journals[ch], after);
    AttachKeepsCounters(cfg, w.conn, ch, w.journals[ch], after);
    var t := NewSub(ch, w.journals[ch], after, |w.conn.wire|);
    var w' := Next(l, cfg, w, AttachTo(ch, after));
    forall x
      ensures FollowsJournal(l, w', x)
    {
      GetPut(w.conn.subs, ch, t, x);
      assert FollowsJournal(l, w, x);
    }
  }

  lemma DetachStep(l: Limits, cfg: Config, w: World, ch: Channel)
    requires WorldInv(l, cfg, w) && Allowed(w, Detach(ch))
    ensures WorldInv(l, cfg, Next(l, cfg, w, Detach(ch)))
  {
    DetachKeepsQueues(cfg, w.conn, ch);
    DetachKeepsCounters(cfg, w.conn, ch);
    DetachFollows(l, cfg, w, ch);
  }

  lemma DetachFollows(l: Limits, cfg: Config, w: World, ch: Channel)
    requires Unique(w.conn.subs) && forall x :: FollowsJournal(l, w, x)
    ensures forall x :: FollowsJournal(l, w.(conn := DetachedFrom(cfg, w.conn, ch)), x)
  {
    forall x
      ensures FollowsJournal(l, w.(conn := DetachedFrom(cfg, w.conn, ch)), x)
    {
      GetDelete(w.conn.subs, ch, x);
      assert FollowsJournal(l, w, x);
    }
  }

  lemma CompactStep(l: Limits, cfg: Config, w: World, ch: Channel, now: int)
    requires WorldInv(l, cfg, w) && ch in w.journals
    ensures WorldInv(l, cfg, Next(l, cfg, w, Compact(ch, now)))
  {
    hide QueuesOk, WithinBounds, FollowsJournal;
    WorldUnique(l, cfg, w);
    CompactedValid(l, w.journals[ch], now);
    CompactedFrame(l, w.journals[ch], now);
    SameFollows(l, w, Next(l, cfg, w, Compact(ch, now)));
  }

  lemma AckStep(l: Limits, cfg: Config, w: World, ch: Channel, n: int)
    requires WorldInv(l, cfg, w) && ch in w.journals
    ensures WorldInv(l, cfg, Next(l, cfg, w, Acknowledge(ch, n)))
  {
    hide QueuesOk, WithinBounds, FollowsJournal, Increasing, SizeOf;
    WorldUnique(l, cfg, w);
    SameFollows(l, w, Next(l, cfg, w, Acknowledge(ch, n)));
  }

  lemma StepKeepsInv(l: Limits, cfg: Config, w: World, step: Step)
    requires WorldInv(l, cfg, w) && Allowed(w, step)
    ensures UniqueSubs(w.conn) && WorldInv(l, cfg, Next(l, cfg, w, step))
  {
    hide *;
    WorldUnique(l, cfg, w);
    match step
    case Append(ch, event, ts) => AllowedChannel(w, step, ch); AppendStep(l, cfg, w, ch, event, ts);
    case Acknowledge(ch, n) => AllowedChannel(w, step, ch); AckStep(l, cfg, w, ch, n);
    case Compact(ch, now) => AllowedChannel(w, step, ch); CompactStep(l, cfg, w, ch, now);
    case AttachTo(ch, after) => AttachStep(l, cfg, w, ch, after);
    case Detach(ch) => DetachStep(l, cfg, w, ch);
    case Reply(text) => ReplyStep(l, cfg, w, text);
    case Drain(n) => AllowedDrain(w, n); DrainStep(l, cfg, w, n);
  }

  lemma WorldUnique(l: Limits, cfg: Config, w: World)
    requires WorldInv(l, cfg, w)
    ensures UniqueSubs(w.conn)
  {
  }

  lemma AllowedChannel(w: World, step: Step, ch: Channel)
    requires Allowed(w, step)
    requires (step.Append? && step.ch == ch) || (step.Acknowledge? && step.ch == ch) || (step.Compact? && step.ch == ch)
    ensures ch in w.journals
  {
  }

  lemma AllowedDrain(w: World, n: nat)
    requires Allowed(w, Drain(n))
    ensures n <= w.conn.buffered
  {
  }

  ghost predicate IsRun(l: Limits, cfg: Config, w: World, steps: seq<Step>, end: World)
    decreases |steps|
  {
    if steps == [] then w == end
    else Allowed(w, steps[0]) && UniqueSubs(w.conn) && IsRun(l, cfg, Next(l, cfg, w, steps[0]), steps[1..], end)
  }

  /** A connection just opened onto journals in any state. */
  ghost predicate Initial(l: Limits, w: World) {
    w.conn == OPENED && forall ch | ch in w.journals :: Valid(l, w.journals[ch])
  }

  lemma {:induction false} RunKeepsInv(l: Limits, cfg: Config, w: World, steps: seq<Step>, end: World)
    requires WorldInv(l, cfg, w) && IsRun(l, cfg, w, steps, end)
    ensures WorldInv(l, cfg, end)
    decreases |steps|
  {
    hide WorldInv, Next, Allowed;
    if steps != [] {
      StepKeepsInv(l, cfg, w, steps[0]);
      RunKeepsInv(l, cfg, Next(l, cfg, w, steps[0]), steps[1..], end);
    }
  }

  lemma InitialInv(l: Limits, cfg: Config, w: World)
    requires Initial(l, w)
    ensures WorldInv(l, cfg, w)
  {
  }

  // ---- the promises -------------------------------------------------------------------------------------------

  /** The journal entries an attach must deliver once: those past its cursor, then every later append. */
  function OwedEntries(a: Attach): seq<Entry> {
    Above(a.journal.entries, a.afterSeq) + a.appended
  }

  lemma {:induction false} BackfillLive(ch: Channel, es: seq<Entry>)
    ensures |FramesOf(ch, Backfill(es))| == |es|
    ensures forall i | 0 <= i < |es| :: FramesOf(ch, Backfill(es))[i] == EventFrame(ch, es[i], false, true)
  {
    if es != [] {
      BackfillLive(ch, es[1..]);
    }
  }

  /** What a successful attach is owed, spelled out: flagged reopens first, then the backlog, then live events. */
  lemma OwedInFull(ch: Channel, a: Attach)
    requires a.journal.lowWater <= a.afterSeq <= a.journal.lastSeq
    ensures Owed(ch, a)
         == FramesOf(ch, Reopened(a.journal.checkpoint.openRequests, a.afterSeq))
            + FramesOf(ch, Backfill(Above(a.journal.entries, a.afterSeq))) + LiveFrames(ch, a.appended)
  {
    var reopened := Reopened(a.journal.checkpoint.openRequests, a.afterSeq);
    FramesOfAppend(ch, reopened, Backfill(Above(a.journal.entries, a.afterSeq)));
  }

  lemma {:induction false} ReopenedSnoc(open: seq<Entry>, e: Entry, after: nat)
    ensures Reopened(open + [e], after)
         == Reopened(open, after) + if e.seqNo <= after then [QueueItem(e, false, true)] else []
  {
    if open == [] {
      assert open + [e] == [e] && [e][1..] == [];
    } else {
      assert (open + [e])[1..] == open[1..] + [e];
      ReopenedSnoc(open[1..], e, after);
      Associate(if open[0].seqNo <= after then [QueueItem(open[0], false, true)] else [], Reopened(open[1..], after),
                if e.seqNo <= after then [QueueItem(e, false, true)] else []);
    }
  }

  lemma ReopenedFrames(ch: Channel, open: seq<Entry>, e: Entry, after: nat)
    ensures
      var before, now := FramesOf(ch, Reopened(open, after)), FramesOf(ch, Reopened(open + [e], after));
      now == if e.seqNo <= after then before + [EventFrame(ch, e, true, true)] else before
  {
    ReopenedSnoc(open, e, after);
    var item := QueueItem(e, false, true);
    FramesOfAppend(ch, Reopened(open, after), if e.seqNo <= after then [item] else []);
    assert [item][1..] == [] && FramesOf(ch, [item]) == [FrameOf(ch, item)];
    assert Reopened(open, after) + [] == Reopened(open, after);
  }

  /** The frames are those of the entries at `at`, flagged; and `at` are the places of the ones at or below the cursor. */
  ghost predicate ReopenedAt(ch: Channel, open: seq<Entry>, after: nat, frames: seq<Frame>, at: seq<nat>) {
    && Ascending(at) && |frames| == |at|
    && (forall k | 0 <= k < |at| :: at[k] < |open| && frames[k] == EventFrame(ch, open[at[k]], true, true))
    && (forall i | 0 <= i < |open| :: i in at <==> open[i].seqNo <= after)
  }

  lemma OneMorePlace(ch: Channel, open: seq<Entry>, e: Entry, after: nat, frames: seq<Frame>, at: seq<nat>)
    requires ReopenedAt(ch, open, after, frames, at)
    ensures
      if e.seqNo <= after
      then ReopenedAt(ch, open + [e], after, frames + [EventFrame(ch, e, true, true)], at + [|open|])
      else ReopenedAt(ch, open + [e], after, frames, at)
  {
    var more, places := open + [e], if e.seqNo <= after then at + [|open|] else at;
    forall i | 0 <= i < |more| ensures i in places <==> more[i].seqNo <= after {
      if i < |open| {
        assert more[i] == open[i];
      } else {
        assert i !in at;
      }
    }
  }

  /** The reopened requests: those at or below the cursor, each once, in the order they were open. */
  lemma {:induction false} ReopenedAre(ch: Channel, open: seq<Entry>, after: nat) returns (at: seq<nat>)
    ensures ReopenedAt(ch, open, after, FramesOf(ch, Reopened(open, after)), at)
    decreases |open|
  {
    hide FramesOf, Reopened, ReopenedAt;
    if open == [] {
      at := [];
      NothingReopened(ch, after);
    } else {
      var n := |open| - 1;
      var before := ReopenedAre(ch, open[..n], after);
      assert open == open[..n] + [open[n]];
      ReopenedFrames(ch, open[..n], open[n], after);
      OneMorePlace(ch, open[..n], open[n], after, FramesOf(ch, Reopened(open[..n], after)), before);
      at := if open[n].seqNo <= after then before + [n] else before;
    }
  }

  lemma NothingReopened(ch: Channel, after: nat)
    ensures ReopenedAt(ch, [], after, FramesOf(ch, Reopened([], after)), [])
  {
  }

  lemma {:induction false} LiveFramesAre(ch: Channel, es: seq<Entry>)
    ensures |LiveFrames(ch, es)| == |es|
    ensures forall i | 0 <= i < |es| :: LiveFrames(ch, es)[i] == EventFrame(ch, es[i], false, false)
    decreases |es|
  {
    if es != [] {
      LiveFramesAre(ch, es[..|es| - 1]);
    }
  }

  /**
   * Frame by frame, what an attach with a cursor the journal can serve is owed: first the open requests it may have seen,
   * at or below the cursor, each once and flagged as reopened, in the checkpoint's order; then what is retained past the
   * cursor, as replays; then what was appended since, live.
   */
  lemma OwedFrameByFrame(ch: Channel, a: Attach) returns (at: seq<nat>)
    requires a.journal.lowWater <= a.afterSeq <= a.journal.lastSeq
    ensures
      var open, more := a.journal.checkpoint.openRequests, Above(a.journal.entries, a.afterSeq);
      var n, m := |at|, |at| + |more|;
      && Ascending(at) && (forall i | 0 <= i < |open| :: i in at <==> open[i].seqNo <= a.afterSeq)
      && |Owed(ch, a)| == m + |a.appended|
      && (forall k | 0 <= k < n :: at[k] < |open| && Owed(ch, a)[k] == EventFrame(ch, open[at[k]], true, true))
      && (forall k | n <= k < m :: Owed(ch, a)[k] == EventFrame(ch, more[k - n], false, true))
      && (forall k | m <= k < |Owed(ch, a)| :: Owed(ch, a)[k] == EventFrame(ch, a.appended[k - m], false, false))
  {
    hide Owed, FramesOf, Reopened, Backfill, LiveFrames, Above;
    var open, more := a.journal.checkpoint.openRequests, a.journal.entries;
    at := ReopenedAre(ch, open, a.afterSeq);
    BackfillLive(ch, Above(more, a.afterSeq));
    LiveFramesAre(ch, a.appended);
    OwedInFull(ch, a);
  }

  /** An attach is handed again exactly the open requests at or below its cursor. */
  lemma ReopensWhatMayBeSeen(ch: Channel, a: Attach, e: Entry)
    requires a.journal.lowWater <= a.afterSeq <= a.journal.lastSeq
    ensures EventFrame(ch, e, true, true) in Owed(ch, a)
            <==> e in a.journal.checkpoint.openRequests && e.seqNo <= a.afterSeq
  {
    hide Owed, Above;
    var at := OwedFrameByFrame(ch, a);
    var open := a.journal.checkpoint.openRequests;
    if e in open && e.seqNo <= a.afterSeq {
      var i :| 0 <= i < |open| && open[i] == e;
      var k :| 0 <= k < |at| && at[k] == i;
      assert Owed(ch, a)[k] == EventFrame(ch, e, true, true);
    }
  }

  /** The entries owed have strictly increasing numbers, all past the cursor: none twice, none out of order. */
  ghost predicate OwedOnce(a: Attach) {
    Increasing(OwedEntries(a)) && forall e | e in OwedEntries(a) :: e.seqNo > a.afterSeq
  }

  lemma OwedIncreasing(l: Limits, a: Attach)
    requires Valid(l, a.journal) && a.afterSeq <= a.journal.lastSeq
    requires forall i | 0 <= i < |a.appended| :: a.appended[i].seqNo == a.journal.lastSeq + 1 + i
    ensures OwedOnce(a)
  {
    var old_ := Above(a.journal.entries, a.afterSeq);
    AboveKeeps(a.journal.entries, a.afterSeq);
    forall i | 0 <= i < |old_|
      ensures old_[i].seqNo <= a.journal.lastSeq
    {
      assert old_[i] in old_;
    }
  }

  lemma NothingPending(ch: Channel, s: Sub)
    ensures !Ready(s) ==> Pending(ch, s) == []
  {
  }

  /**
   * In every run, for every channel the connection is attached to: what it has been sent since the attach is a
   * prefix of what the attach is owed, and all of it once nothing waits; the entries owed are those retained past
   * the cursor followed by exactly what the journal was given since, with strictly increasing numbers.
   */
  lemma DeliveryIsExact(l: Limits, cfg: Config, w0: World, steps: seq<Step>, w: World, ch: Channel)
    requires Initial(l, w0) && IsRun(l, cfg, w0, steps, w) && Has(w.conn.subs, ch)
    ensures
      var s := Get(w.conn.subs, ch).value;
      var a := s.attach;
      && a.wireAt <= |w.conn.wire|
      && SentSince(w.conn, ch, a) <= Owed(ch, a)
      && (!Ready(s) ==> SentSince(w.conn, ch, a) == Owed(ch, a))
      && ch in w.journals && a.journal.lastSeq + |a.appended| == w.journals[ch].lastSeq
      && LastOf(LogOf(w, ch), a.appended)
      && (a.afterSeq <= a.journal.lastSeq ==> OwedOnce(a))
  {
    hide WithinBounds, Owed, Valid, OwedOnce, IsRun, Initial, LastOf, LogOf, OnChannel, FramesOf, Unique;
    InitialInv(l, cfg, w0);
    RunKeepsInv(l, cfg, w0, steps, w);
    var a := Get(w.conn.subs, ch).value.attach;
    assert SubOk(w.conn, ch);
    NothingPending(ch, Get(w.conn.subs, ch).value);
    assert FollowsJournal(l, w, ch);
    if a.afterSeq <= a.journal.lastSeq {
      OwedIncreasing(l, a);
    }
  }

  // ---- what a client can make of it ---------------------------------------------------------------------------

  /** A resync replaces the checkpoint a client holds; each event not flagged as reopened is folded in. */
  function ShownOne(keep: nat, cp: Checkpoint, f: Frame): Checkpoint {
    match f
    case ControlFrame(_) => cp
    case ResyncFrame(_, _, checkpoint) => checkpoint
    case EventFrame(_, entry, reopen, _) => if reopen then cp else Fold(keep, cp, entry)
  }

  function Shown(keep: nat, cp: Checkpoint, fs: seq<Frame>): Checkpoint
    decreases |fs|
  {
    if fs == [] then cp else Shown(keep, ShownOne(keep, cp, fs[0]), fs[1..])
  }

  lemma {:induction false} ShownAppend(keep: nat, cp: Checkpoint, a: seq<Frame>, b: seq<Frame>)
    ensures Shown(keep, cp, a + b) == Shown(keep, Shown(keep, cp, a), b)
    decreases |a|
  {
    hide ShownOne;
    if a == [] {
      assert a + b == b;
    } else {
      assert (a + b)[1..] == a[1..] + b;
      ShownAppend(keep, ShownOne(keep, cp, a[0]), a[1..], b);
    }
  }

  lemma {:induction false} ShownLive(keep: nat, cp: Checkpoint, ch: Channel, es: seq<Entry>)
    ensures Shown(keep, cp, LiveFrames(ch, es)) == FoldAll(keep, cp, es)
    decreases |es|
  {
    if es != [] {
      var n := |es| - 1;
      ShownLive(keep, cp, ch, es[..n]);
      ShownAppend(keep, cp, LiveFrames(ch, es[..n]), [EventFrame(ch, es[n], false, false)]);
      FoldAllAppend(keep, cp, es[..n], [es[n]]);
      assert es == es[..n] + [es[n]] && [es[n]][1..] == [];
      assert [EventFrame(ch, es[n], false, false)][1..] == [];
    }
  }

  lemma {:induction false} ShownBackfill(keep: nat, cp: Checkpoint, ch: Channel, es: seq<Entry>)
    ensures Shown(keep, cp, FramesOf(ch, Backfill(es))) == FoldAll(keep, cp, es)
    decreases |es|
  {
    if es != [] {
      assert Backfill(es)[1..] == Backfill(es[1..]);
      assert FramesOf(ch, Backfill(es))[1..] == FramesOf(ch, Backfill(es[1..]));
      ShownBackfill(keep, Fold(keep, cp, es[0]), ch, es[1..]);
    }
  }

  /** Reopened requests are shown already: they change nothing. */
  lemma {:induction false} ShownReopened(keep: nat, cp: Checkpoint, ch: Channel, open: seq<Entry>, after: nat)
    ensures Shown(keep, cp, FramesOf(ch, Reopened(open, after))) == cp
  {
    if open != [] {
      var rest := Reopened(open[1..], after);
      ShownReopened(keep, cp, ch, open[1..], after);
      if open[0].seqNo <= after {
        var item := QueueItem(open[0], false, true);
        assert ([item] + rest)[1..] == rest;
        assert FramesOf(ch, [item] + rest)[1..] == FramesOf(ch, rest);
      } else {
        assert [] + rest == rest;
      }
    }
  }

  /** A cursor the journal cannot serve: below its low-water mark, or ahead of its newest entry. */
  predicate CannotServe(a: Attach) {
    a.afterSeq < a.journal.lowWater || a.afterSeq > a.journal.lastSeq
  }

  lemma ResyncOwed(ch: Channel, a: Attach)
    requires CannotServe(a)
    ensures Owed(ch, a) == [ResyncFrame(ch, a.journal.lastSeq, a.journal.checkpoint)] + LiveFrames(ch, a.appended)
  {
  }

  /** What a client must hold for its cursor: the checkpoint the journal had there, or anything if it is resynced. */
  ghost predicate HoldsCursor(l: Limits, a: Attach, held: Checkpoint) {
    CannotServe(a)
    || exists es, floor :: DiskRequests.FoldedFrom(l, a.journal, es, floor)
                        && held == FoldAll(l.checkpointMessages, EMPTY_CHECKPOINT, DiskRequests.UpTo(es, a.afterSeq))
  }

  lemma OwedShows(l: Limits, ch: Channel, a: Attach, held: Checkpoint)
    requires HoldsCursor(l, a, held)
    ensures Shown(l.checkpointMessages, held, Owed(ch, a)) == FoldAll(l.checkpointMessages, a.journal.checkpoint, a.appended)
  {
    hide FoldAll, Fold, Shown, Owed, FramesOf, Reopened, Backfill, Above, DiskRequests.FoldedFrom, DiskRequests.UpTo;
    var keep := l.checkpointMessages;
    ShownLive(keep, a.journal.checkpoint, ch, a.appended);
    if CannotServe(a) {
      ResyncOwed(ch, a);
      ResyncFirst(keep, held, ch, a);
    } else {
      var es, floor :| DiskRequests.FoldedFrom(l, a.journal, es, floor)
                    && held == FoldAll(keep, EMPTY_CHECKPOINT, DiskRequests.UpTo(es, a.afterSeq));
      var open, more := a.journal.checkpoint.openRequests, Above(a.journal.entries, a.afterSeq);
      var reopened, backlog := FramesOf(ch, Reopened(open, a.afterSeq)), FramesOf(ch, Backfill(more));
      OwedInFull(ch, a);
      ShownAppend(keep, held, reopened + backlog, LiveFrames(ch, a.appended));
      ShownAppend(keep, held, reopened, backlog);
      ShownReopened(keep, held, ch, open, a.afterSeq);
      ShownBackfill(keep, held, ch, more);
      DiskRequests.ReplayCatchesUp(l, a.journal, es, floor, a.afterSeq);
    }
  }

  /**
   * In every run, an attached client that held the checkpoint of its cursor, or was resynced whatever it held, has been
   * brought to exactly the journal's checkpoint once nothing waits: eviction, token compaction, reopened requests and the
   * order of frames never show.
   */
  lemma ClientCatchesUp(l: Limits, cfg: Config, w0: World, steps: seq<Step>, w: World, ch: Channel, held: Checkpoint)
    requires Initial(l, w0) && IsRun(l, cfg, w0, steps, w) && Has(w.conn.subs, ch)
    requires !Ready(Get(w.conn.subs, ch).value) && HoldsCursor(l, Get(w.conn.subs, ch).value.attach, held)
    ensures
      var a := Get(w.conn.subs, ch).value.attach;
      && a.wireAt <= |w.conn.wire| && ch in w.journals
      && Shown(l.checkpointMessages, held, SentSince(w.conn, ch, a)) == w.journals[ch].checkpoint
  {
    hide WithinBounds, Owed, Valid, OwedOnce, IsRun, Initial, LastOf, LogOf, OnChannel, FramesOf, Unique, Fold, FoldAll;
    hide HoldsCursor, Shown;
    DeliveryIsExact(l, cfg, w0, steps, w, ch);
    InitialInv(l, cfg, w0);
    RunKeepsInv(l, cfg, w0, steps, w);
    assert FollowsJournal(l, w, ch);
    OwedShows(l, ch, Get(w.conn.subs, ch).value.attach, held);
  }

  lemma ResyncFirst(keep: nat, held: Checkpoint, ch: Channel, a: Attach)
    ensures Shown(keep, held, [ResyncFrame(ch, a.journal.lastSeq, a.journal.checkpoint)] + LiveFrames(ch, a.appended))
         == Shown(keep, a.journal.checkpoint, LiveFrames(ch, a.appended))
  {
    var f, rest := ResyncFrame(ch, a.journal.lastSeq, a.journal.checkpoint), LiveFrames(ch, a.appended);
    assert ([f] + rest)[1..] == rest;
  }

  /** In every run an open connection queues no more control replies, and no more live text, than its bound. */
  lemma QueuesStayBounded(l: Limits, cfg: Config, w0: World, steps: seq<Step>, w: World)
    requires Initial(l, w0) && IsRun(l, cfg, w0, steps, w)
    ensures Bytes(cfg, w.conn.control) <= cfg.maxOutboundBytes
    ensures LiveQueued(cfg, w.conn.subs) <= cfg.maxOutboundBytes
    ensures !w.conn.dead ==> w.conn.controlBytes == Bytes(cfg, w.conn.control)
    ensures !w.conn.dead ==> w.conn.liveBytes >= LiveQueued(cfg, w.conn.subs)
  {
    InitialInv(l, cfg, w0);
    RunKeepsInv(l, cfg, w0, steps, w);
  }
}
