/**
 * Delivery to one client (`daemon/connection.ts`): per attached channel one queue holding the replayed backlog and
 * then live events, drained lazily and round-robin into the socket behind the control replies, with byte bounds on
 * what is queued.
 *
 * The socket is a byte count that `Drain` lowers; encoding is a frame's length. `Conn` is the connection as a value
 * with one function per operation; class `Connection` is the object, and class `ChannelSub` the queue it keeps.
 */
module Connections {
  import opened Common
  import opened Wire
  import opened LogParser
  import opened OrderedMap
  import opened MemoryJournal

  const SOCKET_HIGH_WATER: nat := 256 * 1024

  type Channel = string

  datatype Frame =
    | ControlFrame(text: string)
    | ResyncFrame(ch: Channel, seqNo: nat, checkpoint: Checkpoint)
    | EventFrame(ch: Channel, entry: Entry, reopen: bool, replay: bool)

  datatype QueueItem = QueueItem(entry: Entry, live: bool, reopen: bool)

  /** The journal and cursor an attach saw; kept to say what the attach must deliver, never read again. */
  datatype Attach = Attach(journal: Journal, afterSeq: nat, wireAt: nat, appended: seq<Entry>)

  datatype Sub = Sub(resync: Option<Frame>, queue: seq<QueueItem>, attach: Attach)

  datatype Config = Config(maxOutboundBytes: nat, len: Frame -> nat)

  /**
   * `wire` is everything handed to the socket, in order; `leaked` the live bytes of queues dropped by a detach or a
   * second attach. Both are history no operation reads.
   */
  datatype Conn = Conn(
    control: seq<Frame>, controlBytes: int, liveBytes: int, subs: Pairs<Channel, Sub>, buffered: nat, dead: bool,
    wire: seq<Frame>, leaked: nat)

  const OPENED := Conn([], 0, 0, [], 0, false, [], 0)

  // ---- queues -------------------------------------------------------------------------------------------------

  function FrameOf(ch: Channel, item: QueueItem): Frame {
    EventFrame(ch, item.entry, item.reopen, !item.live)
  }

  function FramesOf(ch: Channel, queue: seq<QueueItem>): seq<Frame> {
    if queue == [] then [] else [FrameOf(ch, queue[0])] + FramesOf(ch, queue[1..])
  }

  function Pending(ch: Channel, s: Sub): seq<Frame> {
    (if s.resync.Some? then [s.resync.value] else []) + FramesOf(ch, s.queue)
  }

  function LiveIn(cfg: Config, ch: Channel, queue: seq<QueueItem>): nat {
    if queue == [] then 0
    else (if queue[0].live then cfg.len(FrameOf(ch, queue[0])) else 0) + LiveIn(cfg, ch, queue[1..])
  }

  function LiveQueued(cfg: Config, subs: Pairs<Channel, Sub>): nat {
    if subs == [] then 0 else LiveIn(cfg, subs[0].0, subs[0].1.queue) + LiveQueued(cfg, subs[1..])
  }

  function Bytes(cfg: Config, fs: seq<Frame>): nat {
    if fs == [] then 0 else cfg.len(fs[0]) + Bytes(cfg, fs[1..])
  }

  predicate Ready(s: Sub) {
    s.resync.Some? || s.queue != []
  }

  function FirstReady(subs: Pairs<Channel, Sub>): (i: nat)
    ensures i <= |subs| && (i < |subs| ==> Ready(subs[i].1))
  {
    if subs == [] || Ready(subs[0].1) then 0 else 1 + FirstReady(subs[1..])
  }

  /** How many frames wait: what every send lowers by one. */
  function Waiting(subs: Pairs<Channel, Sub>): nat {
    if subs == [] then 0
    else (if subs[0].1.resync.Some? then 1 else 0) + |subs[0].1.queue| + Waiting(subs[1..])
  }

  // ---- sending ------------------------------------------------------------------------------------------------

  /** The channel served next, its frame, and the channels after serving it (rotated unless it was a resync). */
  function Served(subs: Pairs<Channel, Sub>): (r: Option<(Channel, Frame, Pairs<Channel, Sub>)>)
  {
    var i := FirstReady(subs);
    if i == |subs| then None else
      var ch, s := subs[i].0, subs[i].1;
      if s.resync.Some? then Some((ch, s.resync.value, Put(subs, ch, s.(resync := None))))
      else Some((ch, FrameOf(ch, s.queue[0]), Put(Delete(subs, ch), ch, s.(queue := s.queue[1..]))))
  }

  function LiveFreed(cfg: Config, subs: Pairs<Channel, Sub>): nat {
    var i := FirstReady(subs);
    if i == |subs| || subs[i].1.resync.Some? || !subs[i].1.queue[0].live then 0
    else cfg.len(FrameOf(subs[i].0, subs[i].1.queue[0]))
  }

  function NextFrame(cfg: Config, c: Conn): (Option<Frame>, Conn) {
    if c.control != [] then
      (Some(c.control[0]), c.(control := c.control[1..], controlBytes := c.controlBytes - cfg.len(c.control[0])))
    else
      match Served(c.subs)
      case None => (None, c)
      case Some((_, f, subs)) => (Some(f), c.(subs := subs, liveBytes := c.liveBytes - LiveFreed(cfg, c.subs)))
  }

  function Backlog(c: Conn): nat {
    |c.control| + Waiting(c.subs)
  }

  /** Hand one frame to the socket. */
  function Sent(cfg: Config, c: Conn): Option<Conn> {
    match NextFrame(cfg, c)
    case (None, _) => None
    case (Some(f), d) => Some(d.(buffered := d.buffered + cfg.len(f), wire := d.wire + [f]))
  }

  lemma {:induction false} WaitingPut(m: Pairs<Channel, Sub>, ch: Channel, s: Sub)
    ensures Waiting(Put(m, ch, s)) + (if Has(m, ch) then Waiting([(ch, Get(m, ch).value)]) else 0)
         == Waiting(m) + Waiting([(ch, s)])
  {
    assert [(ch, s)][1..] == [];
    if Has(m, ch) {
      assert [(ch, Get(m, ch).value)][1..] == [];
    }
    if m != [] && m[0].0 != ch {
      WaitingPut(m[1..], ch, s);
    }
  }

  lemma {:induction false} WaitingDelete(m: Pairs<Channel, Sub>, ch: Channel)
    ensures Waiting(Delete(m, ch)) + (if Has(m, ch) then Waiting([(ch, Get(m, ch).value)]) else 0) == Waiting(m)
  {
    if Has(m, ch) {
      assert [(ch, Get(m, ch).value)][1..] == [];
    }
    if m != [] && m[0].0 != ch {
      WaitingDelete(m[1..], ch);
    }
  }

  ghost predicate UniqueSubs(c: Conn) {
    Unique(c.subs)
  }

  /** Serving a channel changes its own queue only, by the frame it sends. */
  lemma ServedGet(subs: Pairs<Channel, Sub>, x: Channel)
    requires Unique(subs) && Served(subs).Some?
    ensures
      var (ch, f, after) := Served(subs).value;
      && Unique(after) && Has(subs, ch) && Has(after, ch)
      && Pending(ch, Get(subs, ch).value) == [f] + Pending(ch, Get(after, ch).value)
      && Get(after, ch).value.attach == Get(subs, ch).value.attach
      && (x != ch ==> Get(after, x) == Get(subs, x))
  {
    var i := FirstReady(subs);
    var ch, s := subs[i].0, subs[i].1;
    GetAt(subs, i);
    if s.resync.Some? {
      var t := s.(resync := None);
      GetPut(subs, ch, t, ch);
      GetPut(subs, ch, t, x);
      PutUnique(subs, ch, t);
    } else {
      var t := s.(queue := s.queue[1..]);
      DeleteUnique(subs, ch);
      PutUnique(Delete(subs, ch), ch, t);
      GetPut(Delete(subs, ch), ch, t, ch);
      GetPut(Delete(subs, ch), ch, t, x);
      GetDelete(subs, ch, x);
    }
  }

  lemma ServedWaiting(subs: Pairs<Channel, Sub>)
    requires Unique(subs) && Served(subs).Some?
    ensures Waiting(Served(subs).value.2) == Waiting(subs) - 1
  {
    var i := FirstReady(subs);
    var ch, s := subs[i].0, subs[i].1;
    GetAt(subs, i);
    assert [(ch, s)][1..] == [];
    if s.resync.Some? {
      var t := s.(resync := None);
      assert [(ch, t)][1..] == [];
      WaitingPut(subs, ch, t);
    } else {
      var t := s.(queue := s.queue[1..]);
      assert [(ch, t)][1..] == [];
      WaitingDelete(subs, ch);
      GetDelete(subs, ch, ch);
      WaitingPut(Delete(subs, ch), ch, t);
    }
  }

  lemma SentShrinks(cfg: Config, c: Conn)
    requires UniqueSubs(c) && Sent(cfg, c).Some?
    ensures UniqueSubs(Sent(cfg, c).value) && Backlog(Sent(cfg, c).value) == Backlog(c) - 1
  {
    if c.control == [] {
      ServedWaiting(c.subs);
      ServedGet(c.subs, Served(c.subs).value.0);
    }
  }

  /** Send until the socket holds enough or nothing waits. */
  function Pumped(cfg: Config, c: Conn): Conn
    requires UniqueSubs(c)
    decreases Backlog(c)
  {
    if c.buffered >= SOCKET_HIGH_WATER then c else
      match Sent(cfg, c)
      case None => c
      case Some(d) =>
        SentShrinks(cfg, c);
        Pumped(cfg, d)
  }

  // ---- the other operations -----------------------------------------------------------------------------------

  function Closed(c: Conn): Conn {
    c.(dead := true, control := [], controlBytes := 0, subs := [])
  }

  function ControlQueued(cfg: Config, c: Conn, f: Frame): Conn
    requires UniqueSubs(c)
  {
    if c.dead then c else
      var d := c.(control := c.control + [f], controlBytes := c.controlBytes + cfg.len(f));
      if d.controlBytes > cfg.maxOutboundBytes then Closed(d) else Pumped(cfg, d)
  }

  /** A live event queued on a channel the connection is attached to. */
  function LiveQueuedOn(cfg: Config, c: Conn, ch: Channel, entry: Entry): Conn
    requires Has(c.subs, ch)
  {
    var s, item := Get(c.subs, ch).value, QueueItem(entry, true, false);
    c.(subs := Put(c.subs, ch, s.(queue := s.queue + [item],
                                  attach := s.attach.(appended := s.attach.appended + [entry]))),
       liveBytes := c.liveBytes + cfg.len(FrameOf(ch, item)))
  }

  function LiveArrived(cfg: Config, c: Conn, ch: Channel, entry: Entry): Conn
    requires UniqueSubs(c)
  {
    if c.dead || !Has(c.subs, ch) then c else
      var d := LiveQueuedOn(cfg, c, ch, entry);
      if d.liveBytes + d.buffered > cfg.maxOutboundBytes then Closed(d) else
        QueuedUnique(cfg, c, ch, entry);
        Pumped(cfg, d)
  }

  lemma QueuedUnique(cfg: Config, c: Conn, ch: Channel, entry: Entry)
    requires UniqueSubs(c) && Has(c.subs, ch)
    ensures UniqueSubs(LiveQueuedOn(cfg, c, ch, entry))
  {
    var s, item := Get(c.subs, ch).value, QueueItem(entry, true, false);
    PutUnique(c.subs, ch, s.(queue := s.queue + [item], attach := s.attach.(appended := s.attach.appended + [entry])));
  }

  /** Open requests at or below the cursor, to be delivered again. */
  function Reopened(open: seq<Entry>, afterSeq: nat): seq<QueueItem> {
    if open == [] then []
    else (if open[0].seqNo <= afterSeq then [QueueItem(open[0], false, true)] else []) + Reopened(open[1..], afterSeq)
  }

  function Backfill(es: seq<Entry>): seq<QueueItem> {
    if es == [] then [] else [QueueItem(es[0], false, false)] + Backfill(es[1..])
  }

  /** What an attach puts in front of the live events. */
  function NewSub(ch: Channel, j: Journal, afterSeq: nat, wireAt: nat): Sub {
    var attach := Attach(j, afterSeq, wireAt, []);
    if afterSeq > j.lastSeq then Sub(Some(ResyncFrame(ch, j.lastSeq, j.checkpoint)), [], attach) else
      match Replayed(j, afterSeq)
      case Resync(checkpoint, lastSeq) => Sub(Some(ResyncFrame(ch, lastSeq, checkpoint)), [], attach)
      case Entries(es) => Sub(None, Reopened(j.checkpoint.openRequests, afterSeq) + Backfill(es), attach)
  }

  function DroppedLive(cfg: Config, c: Conn, ch: Channel): nat {
    if Has(c.subs, ch) then LiveIn(cfg, ch, Get(c.subs, ch).value.queue) else 0
  }

  /** Replay and subscribe in one synchronous turn; an earlier attach to the channel is replaced. */
  function Attached(cfg: Config, c: Conn, ch: Channel, j: Journal, afterSeq: nat): Conn {
    c.(subs := Put(c.subs, ch, NewSub(ch, j, afterSeq, |c.wire|)), leaked := c.leaked + DroppedLive(cfg, c, ch))
  }

  function DetachedFrom(cfg: Config, c: Conn, ch: Channel): Conn {
    c.(subs := Delete(c.subs, ch), leaked := c.leaked + DroppedLive(cfg, c, ch))
  }

  function Drained(cfg: Config, c: Conn, n: nat): Conn
    requires UniqueSubs(c) && n <= c.buffered
  {
    Pumped(cfg, c.(buffered := c.buffered - n))
  }

  // ---- what the operations decide -----------------------------------------------------------------------------

  /** A reply that waits goes before any channel's frame, and the channels wait on. */
  lemma RepliesGoFirst(cfg: Config, c: Conn)
    requires c.control != []
    ensures
      var d := Sent(cfg, c);
      && d.Some? && d.value.wire == c.wire + [c.control[0]] && d.value.control == c.control[1..]
      && d.value.subs == c.subs && d.value.liveBytes == c.liveBytes
  {
  }

  /** Frames go out while the socket holds less than 256 KiB and one waits, and not otherwise. */
  lemma {:induction false} PumpedUntilFull(cfg: Config, c: Conn)
    requires UniqueSubs(c)
    ensures
      var d := Pumped(cfg, c);
      && (c.buffered >= 256 * 1024 ==> d == c)
      && (d.buffered >= 256 * 1024 || (d.control == [] && forall i | 0 <= i < |d.subs| :: !Ready(d.subs[i].1)))
      && c.wire <= d.wire
      && forall k | |c.wire| <= k < |d.wire| :: c.buffered + Bytes(cfg, d.wire[|c.wire|..k]) < 256 * 1024
    decreases Backlog(c)
  {
    hide Served, LiveFreed, Unique, FirstReady;
    if c.buffered < SOCKET_HIGH_WATER {
      if Sent(cfg, c).None? {
        NothingToSend(cfg, c);
      } else {
        var d := Sent(cfg, c).value;
        SentShrinks(cfg, c);
        SentOne(cfg, c);
        PumpedUntilFull(cfg, d);
        var end, n := Pumped(cfg, d), |c.wire|;
        forall k | n <= k < |end.wire| ensures c.buffered + Bytes(cfg, end.wire[n..k]) < 256 * 1024 {
          if k > n {
            assert end.wire[n..k] == [end.wire[n]] + end.wire[n + 1..k];
            assert end.wire[n] == d.wire[n];
          }
        }
      }
    }
  }

  lemma SentOne(cfg: Config, c: Conn)
    requires Sent(cfg, c).Some?
    ensures
      var d := Sent(cfg, c).value;
      |d.wire| == |c.wire| + 1 && c.wire <= d.wire && d.buffered == c.buffered + cfg.len(d.wire[|c.wire|])
  {
  }

  lemma NothingToSend(cfg: Config, c: Conn)
    requires Sent(cfg, c).None?
    ensures c.control == [] && forall i | 0 <= i < |c.subs| :: !Ready(c.subs[i].1)
  {
    NoneReadyBefore(c.subs);
  }

  lemma {:induction false} NoneReadyBefore(subs: Pairs<Channel, Sub>)
    ensures forall i | 0 <= i < FirstReady(subs) :: !Ready(subs[i].1)
  {
    if subs != [] && !Ready(subs[0].1) {
      NoneReadyBefore(subs[1..]);
      assert forall i | 1 <= i < |subs| :: subs[i] == subs[1..][i - 1];
    }
  }

  /**
   * Whatever wakes the connection, a reply, an arrival or the socket draining, leaves it closed, its socket full, or
   * nothing waiting.
   */
  lemma NothingWaitsForRoom(cfg: Config, c: Conn, text: string, ch: Channel, entry: Entry, n: nat)
    requires UniqueSubs(c) && !c.dead && Has(c.subs, ch) && n <= c.buffered
    ensures AtRest(ControlQueued(cfg, c, ControlFrame(text)))
    ensures AtRest(LiveArrived(cfg, c, ch, entry))
    ensures AtRest(Drained(cfg, c, n))
  {
    hide Unique, Served, FirstReady, Ready;
    var f := ControlFrame(text);
    QueuedUnique(cfg, c, ch, entry);
    PumpedUntilFull(cfg, c.(control := c.control + [f], controlBytes := c.controlBytes + cfg.len(f)));
    PumpedUntilFull(cfg, LiveQueuedOn(cfg, c, ch, entry));
    PumpedUntilFull(cfg, c.(buffered := c.buffered - n));
  }

  ghost predicate AtRest(c: Conn) {
    c.dead || c.buffered >= 256 * 1024 || (c.control == [] && forall i | 0 <= i < |c.subs| :: !Ready(c.subs[i].1))
  }

  /** An arrival closes the connection exactly when what is counted live, with it, and what the socket holds pass the bound. */
  lemma ArrivalClosesIff(cfg: Config, c: Conn, ch: Channel, entry: Entry)
    requires UniqueSubs(c) && !c.dead
    ensures LiveArrived(cfg, c, ch, entry).dead
            <==> Has(c.subs, ch)
                 && c.liveBytes + cfg.len(EventFrame(ch, entry, false, false)) + c.buffered > cfg.maxOutboundBytes
  {
    if Has(c.subs, ch) {
      QueuedUnique(cfg, c, ch, entry);
      PumpedStaysOpen(cfg, LiveQueuedOn(cfg, c, ch, entry));
    }
  }

  /** A reply closes it exactly when the replies waiting, with it, pass the bound. */
  lemma ReplyClosesIff(cfg: Config, c: Conn, text: string)
    requires UniqueSubs(c) && !c.dead
    ensures ControlQueued(cfg, c, ControlFrame(text)).dead
            <==> c.controlBytes + cfg.len(ControlFrame(text)) > cfg.maxOutboundBytes
  {
    var f := ControlFrame(text);
    PumpedStaysOpen(cfg, c.(control := c.control + [f], controlBytes := c.controlBytes + cfg.len(f)));
  }

  lemma {:induction false} PumpedStaysOpen(cfg: Config, c: Conn)
    requires UniqueSubs(c)
    ensures Pumped(cfg, c).dead == c.dead
    decreases Backlog(c)
  {
    hide Served, LiveFreed, Unique;
    if c.buffered < SOCKET_HIGH_WATER && Sent(cfg, c).Some? {
      SentShrinks(cfg, c);
      PumpedStaysOpen(cfg, Sent(cfg, c).value);
    }
  }

  // ---- the objects --------------------------------------------------------------------------------------------

  /** The queue's items from `head` on, which `next` has not taken. */
  function Untaken(items: seq<Option<QueueItem>>): seq<QueueItem> {
    if items == [] then []
    else (match items[0] case Some(item) => [item] case None => []) + Untaken(items[1..])
  }

  lemma {:induction false} UntakenAppend(a: seq<Option<QueueItem>>, b: seq<Option<QueueItem>>)
    ensures Untaken(a + b) == Untaken(a) + Untaken(b)
  {
    if a == [] {
      assert a + b == b;
    } else {
      assert (a + b)[1..] == a[1..] + b;
      UntakenAppend(a[1..], b);
    }
  }

  /** An array with a moving head, compacted now and then: for its users, a plain first-in first-out queue. */
  class ChannelSub {
    var items: seq<Option<QueueItem>>
    var head: nat

    ghost predicate Valid()
      reads this
    {
      head <= |items| && forall i | head <= i < |items| :: items[i].Some?
    }

    ghost function Contents(): seq<QueueItem>
      reads this
      requires Valid()
    {
      Untaken(items[head..])
    }

    constructor ()
      ensures Valid() && Contents() == []
    {
      items, head := [], 0;
    }

    method Push(item: QueueItem)
      requires Valid()
      modifies this
      ensures Valid() && Contents() == old(Contents()) + [item]
    {
      UntakenAppend(items[head..], [Some(item)]);
      assert [Some(item)][1..] == [];
      items := items + [Some(item)];
      assert items[head..] == old(items)[head..] + [Some(item)];
    }

    method Next() returns (item: Option<QueueItem>)
      requires Valid()
      modifies this
      ensures Valid()
      ensures item == if old(Contents()) == [] then None else Some(old(Contents())[0])
      ensures Contents() == if old(Contents()) == [] then [] else old(Contents())[1..]
    {
      if head == |items| {
        assert items[head..] == [];
        return None;
      }
      item := items[head];
      assert items[head..][1..] == items[head + 1..];
      items := items[head := None];
      head := head + 1;
      assert items[head..] == old(items)[old(head) + 1..];
      if head > 1024 && head * 2 > |items| {
        items := items[head..];
        head := 0;
        assert items[0..] == items;
      }
    }
  }

  class Connection {
    const cfg: Config
    var control: seq<Frame>
    var controlBytes: int
    var liveBytes: int
    var subs: Pairs<Channel, Sub>
    var buffered: nat
    var dead: bool
    var wire: seq<Frame>
    ghost var leaked: nat

    ghost function Value(): Conn
      reads this
    {
      Conn(control, controlBytes, liveBytes, subs, buffered, dead, wire, leaked)
    }

    constructor (cfg: Config)
      ensures this.cfg == cfg && Value() == OPENED
    {
      this.cfg := cfg;
      control, controlBytes, liveBytes, subs, buffered, dead := [], 0, 0, [], 0, false;
      wire, leaked := [], 0;
    }

    /** The next frame to send, control replies first, then one channel's turn. */
    method Next() returns (frame: Option<Frame>)
      requires Unique(subs)
      modifies this`control, this`controlBytes, this`liveBytes, this`subs
      ensures (frame, Value()) == NextFrame(cfg, old(Value()))
    {
      if |control| > 0 {
        var f := control[0];
        control := control[1..];
        controlBytes := controlBytes - cfg.len(f);
        return Some(f);
      }
      var i := 0;
      while i < |subs| && !Ready(subs[i].1)
        invariant 0 <= i <= |subs|
        invariant FirstReady(subs) == i + FirstReady(subs[i..])
      {
        assert subs[i..][1..] == subs[i + 1..];
        i := i + 1;
      }
      if i == |subs| {
        return None;
      }
      var ch, s := subs[i].0, subs[i].1;
      if s.resync.Some? {
        subs := Put(subs, ch, s.(resync := None));
        return s.resync;
      }
      var item := s.queue[0];
      var f := FrameOf(ch, item);
      if item.live {
        liveBytes := liveBytes - cfg.len(f);
      }
      subs := Put(Delete(subs, ch), ch, s.(queue := s.queue[1..]));
      frame := Some(f);
    }

    /** Send while the socket has room. */
    method Pump()
      requires Unique(subs)
      modifies this
      ensures Value() == Pumped(cfg, old(Value()))
    {
      while buffered < SOCKET_HIGH_WATER
        invariant Unique(subs) && Pumped(cfg, Value()) == Pumped(cfg, old(Value()))
        decreases Backlog(Value())
      {
        ghost var before := Value();
        var frame := Next();
        if frame.None? {
          return;
        }
        buffered := buffered + cfg.len(frame.value);
        wire := wire + [frame.value];
        assert Sent(cfg, before) == Some(Value());
        SentShrinks(cfg, before);
      }
    }

    method CloseWith()
      modifies this
      ensures Value() == Closed(old(Value()))
    {
      subs := [];
      dead := true;
      control := [];
      controlBytes := 0;
    }

    method QueueControl(f: Frame)
      requires Unique(subs)
      modifies this
      ensures Value() == ControlQueued(cfg, old(Value()), f)
    {
      if dead {
        return;
      }
      control := control + [f];
      controlBytes := controlBytes + cfg.len(f);
      if controlBytes > cfg.maxOutboundBytes {
        CloseWith();
        return;
      }
      Pump();
    }

    /** The journal's listener for a channel this connection is attached to. */
    method OnLive(ch: Channel, entry: Entry)
      requires Unique(subs)
      modifies this
      ensures Value() == LiveArrived(cfg, old(Value()), ch, entry)
    {
      if dead || !Has(subs, ch) {
        return;
      }
      QueuedUnique(cfg, Value(), ch, entry);
      var s, item := Get(subs, ch).value, QueueItem(entry, true, false);
      subs := Put(subs, ch, s.(queue := s.queue + [item],
                               attach := s.attach.(appended := s.attach.appended + [entry])));
      liveBytes := liveBytes + cfg.len(FrameOf(ch, item));
      assert Value() == LiveQueuedOn(cfg, old(Value()), ch, entry);
      if liveBytes + buffered > cfg.maxOutboundBytes {
        CloseWith();
        return;
      }
      Pump();
    }

    method AttachChannel(ch: Channel, j: Journal, afterSeq: nat)
      modifies this`subs, this`leaked
      ensures Value() == Attached(cfg, old(Value()), ch, j, afterSeq)
    {
      leaked := leaked + DroppedLive(cfg, Value(), ch);
      var attach := Attach(j, afterSeq, |wire|, []);
      var replay := if afterSeq > j.lastSeq then Resync(j.checkpoint, j.lastSeq) else Replayed(j, afterSeq);
      var sub;
      match replay {
        case Resync(checkpoint, lastSeq) =>
          sub := Sub(Some(ResyncFrame(ch, lastSeq, checkpoint)), [], attach);
        case Entries(entries) =>
          var queue := QueueReopened(j.checkpoint.openRequests, afterSeq);
          queue := QueueBackfill(queue, entries);
          sub := Sub(None, queue, attach);
      }
      subs := Put(subs, ch, sub);
    }

    method QueueReopened(open: seq<Entry>, afterSeq: nat) returns (queue: seq<QueueItem>)
      ensures queue == Reopened(open, afterSeq)
    {
      queue := [];
      var i := 0;
      while i < |open|
        invariant 0 <= i <= |open|
        invariant Reopened(open, afterSeq) == queue + Reopened(open[i..], afterSeq)
      {
        assert open[i..][1..] == open[i + 1..];
        if open[i].seqNo <= afterSeq {
          Associate(queue, [QueueItem(open[i], false, true)], Reopened(open[i + 1..], afterSeq));
          queue := queue + [QueueItem(open[i], false, true)];
        } else {
          assert [] + Reopened(open[i + 1..], afterSeq) == Reopened(open[i + 1..], afterSeq);
        }
        i := i + 1;
      }
    }

    method QueueBackfill(start: seq<QueueItem>, entries: seq<Entry>) returns (queue: seq<QueueItem>)
      ensures queue == start + Backfill(entries)
    {
      queue := start;
      var i := 0;
      while i < |entries|
        invariant 0 <= i <= |entries|
        invariant start + Backfill(entries) == queue + Backfill(entries[i..])
      {
        assert entries[i..][1..] == entries[i + 1..];
        Associate(queue, [QueueItem(entries[i], false, false)], Backfill(entries[i + 1..]));
        queue := queue + [QueueItem(entries[i], false, false)];
        i := i + 1;
      }
    }

    method DetachChannel(ch: Channel)
      modifies this`subs, this`leaked
      ensures Value() == DetachedFrom(cfg, old(Value()), ch)
    {
      leaked := leaked + DroppedLive(cfg, Value(), ch);
      subs := Delete(subs, ch);
    }

    /** The socket took `n` bytes off its buffer. */
    method SocketDrained(n: nat)
      requires Unique(subs) && n <= buffered
      modifies this
      ensures Value() == Drained(cfg, old(Value()), n)
    {
      buffered := buffered - n;
      Pump();
    }
  }
}
