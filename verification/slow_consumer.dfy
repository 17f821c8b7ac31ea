/**
 * A run in which a connection is closed as a slow consumer (daemon/connection.ts:662-673) although what it has queued
 * and what its socket holds are well within the bound: the bytes of a dropped queue are still counted.
 */
module SlowConsumers {
  import opened Common
  import opened Wire
  import opened LogParser
  import opened OrderedMap
  import opened MemoryJournal
  import opened Connections
  import opened Delivery

  const CH: Channel := "t:a"

  const UNBOUNDED: Limits := Limits(None, None, None, 20, (e: WireEvent) => 1)

  /** The first event fills the socket, every later one is 200000 bytes; the bound is 600000. */
  const TIGHT: Config := Connections.Config(
    600000, (f: Frame) => if f.EventFrame? && f.entry.seqNo == 1 then SOCKET_HIGH_WATER else 200000)

  /** Attach, an event that fills the socket, one that waits, detach, attach again past both, and a third event. */
  const REATTACH: seq<Step> :=
    [AttachTo(CH, 0), Append(CH, Done, 0), Append(CH, Done, 0), Detach(CH), AttachTo(CH, 2), Append(CH, Done, 0)]

  function DoneUpTo(n: nat): (j: Journal)
    ensures j.lastSeq == n && j.lowWater == 0 && j.checkpoint == EMPTY_CHECKPOINT
    ensures forall i | 0 <= i < |j.entries| :: j.entries[i].seqNo <= n
  {
    if n == 0 then FRESH else Appended(UNBOUNDED, DoneUpTo(n - 1), Done, 0)
  }

  function DoneEntry(n: nat): Entry {
    Entry(n, 0, Done)
  }

  lemma {:induction false} NothingAbove(es: seq<Entry>, n: nat)
    requires forall i | 0 <= i < |es| :: es[i].seqNo <= n
    ensures Above(es, n) == []
  {
    if es != [] {
      NothingAbove(es[1..], n);
    }
  }

  /** An attach at the end of such a journal has nothing to replay. */
  lemma EmptyAttach(n: nat, wireAt: nat)
    ensures NewSub(CH, DoneUpTo(n), n, wireAt) == Sub(None, [], Attach(DoneUpTo(n), n, wireAt, []))
  {
    NothingAbove(DoneUpTo(n).entries, n);
  }

  /** The connection at each point: attached, with the socket full, with one event waiting. */
  function AttachedAt(n: nat, appended: seq<Entry>, queue: seq<QueueItem>, wireAt: nat): Pairs<Channel, Sub> {
    [(CH, Sub(None, queue, Attach(DoneUpTo(n), n, wireAt, appended)))]
  }

  function Full(): Conn {
    OPENED.(subs := AttachedAt(0, [DoneEntry(1)], [], 0), buffered := SOCKET_HIGH_WATER,
            wire := [EventFrame(CH, DoneEntry(1), false, false)])
  }

  function OneWaits(): Conn {
    Full().(subs := AttachedAt(0, [DoneEntry(1), DoneEntry(2)], [QueueItem(DoneEntry(2), true, false)], 0),
            liveBytes := 200000)
  }

  function Reattached(): Conn {
    OneWaits().(subs := AttachedAt(2, [], [], 1), leaked := 200000)
  }

  lemma FirstFills()
    ensures
      var c := OPENED.(subs := AttachedAt(0, [], [], 0));
      UniqueSubs(c) && LiveArrived(TIGHT, c, CH, DoneEntry(1)) == Full()
  {
    hide DoneUpTo, Pumped, Served, LiveFreed;
    var c := OPENED.(subs := AttachedAt(0, [], [], 0));
    assert c.subs[1..] == [];
    var item := QueueItem(DoneEntry(1), true, false);
    var q := LiveQueuedOn(TIGHT, c, CH, DoneEntry(1));
    assert [] + [item] == [item] && [] + [DoneEntry(1)] == [DoneEntry(1)];
    assert q.subs == AttachedAt(0, [DoneEntry(1)], [item], 0);
    var a := Attach(DoneUpTo(0), 0, 0, [DoneEntry(1)]);
    assert q.subs == [(CH, Sub(None, [item], a))];
    OnlyItemServed(a, item);
    assert q.liveBytes == TIGHT.len(FrameOf(CH, item)) == SOCKET_HIGH_WATER;
    assert Served(q.subs) == Some((CH, FrameOf(CH, item), [(CH, Sub(None, [], a))]));
    assert LiveFreed(TIGHT, q.subs) == SOCKET_HIGH_WATER;
    assert NextFrame(TIGHT, q).1.liveBytes == 0;
    assert NextFrame(TIGHT, q).1.subs == AttachedAt(0, [DoneEntry(1)], [], 0);
    assert [] + [FrameOf(CH, item)] == [FrameOf(CH, item)];
    assert Sent(TIGHT, q) == Some(Full());
    QueuedUnique(TIGHT, c, CH, DoneEntry(1));
    FullStops(q);
  }

  lemma OnlyItemServed(a: Attach, item: QueueItem)
    ensures Served([(CH, Sub(None, [item], a))]) == Some((CH, FrameOf(CH, item), [(CH, Sub(None, [], a))]))
    ensures LiveFreed(TIGHT, [(CH, Sub(None, [item], a))]) == if item.live then TIGHT.len(FrameOf(CH, item)) else 0
  {
    var subs := [(CH, Sub(None, [item], a))];
    assert subs[1..] == [] && [item][1..] == [];
  }

  lemma FullStops(q: Conn)
    requires UniqueSubs(q) && q.buffered < SOCKET_HIGH_WATER && Sent(TIGHT, q) == Some(Full())
    ensures Pumped(TIGHT, q) == Full()
  {
    hide Sent;
    SentShrinks(TIGHT, q);
  }

  lemma SecondWaits()
    ensures UniqueSubs(Full()) && LiveArrived(TIGHT, Full(), CH, DoneEntry(2)) == OneWaits()
  {
    var c := Full();
    assert c.subs[1..] == [];
    var item := QueueItem(DoneEntry(2), true, false);
    assert [] + [item] == [item] && [DoneEntry(1)] + [DoneEntry(2)] == [DoneEntry(1), DoneEntry(2)];
    assert LiveQueuedOn(TIGHT, c, CH, DoneEntry(2)) == OneWaits();
  }

  lemma DetachLeaks()
    ensures DetachedFrom(TIGHT, OneWaits(), CH) == OneWaits().(subs := [], leaked := 200000)
    ensures UniqueSubs(OneWaits())
  {
    var c := OneWaits();
    assert c.subs[1..] == [] && c.subs[0].1.queue[1..] == [];
  }

  /** The third event closes the connection, with 200000 bytes queued and 262144 in the socket. */
  lemma ThirdCloses()
    ensures UniqueSubs(Reattached()) && LiveArrived(TIGHT, Reattached(), CH, DoneEntry(3)).dead
    ensures LiveQueued(TIGHT, LiveQueuedOn(TIGHT, Reattached(), CH, DoneEntry(3)).subs) + Reattached().buffered
         == 200000 + SOCKET_HIGH_WATER
  {
    var c := Reattached();
    assert c.subs[1..] == [];
    var item := QueueItem(DoneEntry(3), true, false);
    assert [] + [item] == [item] && [item][1..] == [];
    var q := LiveQueuedOn(TIGHT, c, CH, DoneEntry(3));
    assert [] + [DoneEntry(3)] == [DoneEntry(3)];
    assert q.subs == AttachedAt(2, [DoneEntry(3)], [item], 1);
    assert q.subs[1..] == [];
    assert LiveIn(TIGHT, CH, [item]) == 200000;
  }

  lemma Ran(w: World, step: Step, rest: seq<Step>, end: World)
    requires Allowed(w, step) && UniqueSubs(w.conn)
    requires IsRun(UNBOUNDED, TIGHT, Next(UNBOUNDED, TIGHT, w, step), rest, end)
    ensures IsRun(UNBOUNDED, TIGHT, w, [step] + rest, end)
  {
    assert ([step] + rest)[1..] == rest;
  }

  lemma DoneNext(n: nat)
    ensures DoneUpTo(n + 1) == Appended(UNBOUNDED, DoneUpTo(n), Done, 0)
    ensures NextEntry(DoneUpTo(n), Done, 0) == DoneEntry(n + 1)
  {
    hide Appended;
  }

  /** The worlds of the run. */
  function WorldAt(n: nat, c: Conn): World {
    World(map[CH := DoneUpTo(n)], c,
          if n == 0 then map[] else if n == 1 then map[CH := [DoneEntry(1)]]
          else map[CH := [DoneEntry(1), DoneEntry(2)]])
  }

  lemma AttachStepIs(n: nat, c: Conn, d: Conn)
    requires UniqueSubs(c) && !c.dead && c.subs == [] && d == c.(subs := AttachedAt(n, [], [], |c.wire|))
    ensures Allowed(WorldAt(n, c), AttachTo(CH, n))
    ensures Next(UNBOUNDED, TIGHT, WorldAt(n, c), AttachTo(CH, n)) == WorldAt(n, d)
  {
    hide DoneUpTo, NewSub;
    EmptyAttach(n, |c.wire|);
  }

  lemma AppendStepIs(n: nat, c: Conn, d: Conn)
    requires n < 2 && UniqueSubs(c) && LiveArrived(TIGHT, c, CH, DoneEntry(n + 1)) == d
    ensures Allowed(WorldAt(n, c), Append(CH, Done, 0))
    ensures Next(UNBOUNDED, TIGHT, WorldAt(n, c), Append(CH, Done, 0)) == WorldAt(n + 1, d)
  {
    hide DoneUpTo, LiveArrived, Appended;
    DoneNext(n);
    var w := WorldAt(n, c);
    assert w.journals[CH := DoneUpTo(n + 1)] == map[CH := DoneUpTo(n + 1)];
    assert LogOf(w, CH) + [DoneEntry(n + 1)] == if n == 0 then [DoneEntry(1)] else [DoneEntry(1), DoneEntry(2)];
    assert w.logs[CH := LogOf(w, CH) + [DoneEntry(n + 1)]] == WorldAt(n + 1, d).logs;
  }

  lemma DetachStepIs()
    ensures Allowed(WorldAt(2, OneWaits()), Detach(CH)) && UniqueSubs(OneWaits())
    ensures Next(UNBOUNDED, TIGHT, WorldAt(2, OneWaits()), Detach(CH))
         == WorldAt(2, OneWaits().(subs := [], leaked := 200000))
  {
    hide DoneUpTo, DetachedFrom;
    DetachLeaks();
  }

  lemma LastStep(w: World)
    requires w == WorldAt(2, Reattached())
    ensures Allowed(w, Append(CH, Done, 0)) && UniqueSubs(w.conn)
    ensures
      var end := Next(UNBOUNDED, TIGHT, w, Append(CH, Done, 0));
      && IsRun(UNBOUNDED, TIGHT, w, [Append(CH, Done, 0)], end) && end.conn.dead
      && end.conn == LiveArrived(TIGHT, Reattached(), CH, DoneEntry(3))
  {
    hide DoneUpTo, LiveArrived, Appended;
    DoneNext(2);
    ThirdCloses();
    assert [Append(CH, Done, 0)][1..] == [];
  }

  /** Closed by the third event, with less queued and in the socket than the bound allows. */
  ghost predicate ClosedWithinBound(c: Conn) {
    && UniqueSubs(Reattached()) && c == LiveArrived(TIGHT, Reattached(), CH, DoneEntry(3)) && c.dead
    && LiveQueued(TIGHT, LiveQueuedOn(TIGHT, Reattached(), CH, DoneEntry(3)).subs) + Reattached().buffered
       <= TIGHT.maxOutboundBytes
  }

  /** In this run the connection is closed as too slow although 462144 of its 600000 bytes are in use. */
  lemma ClosedTooEarly() returns (w: World)
    ensures Initial(UNBOUNDED, WorldAt(0, OPENED)) && IsRun(UNBOUNDED, TIGHT, WorldAt(0, OPENED), REATTACH, w)
    ensures ClosedWithinBound(w.conn)
  {
    hide ClosedWithinBound, IsRun, Next, Initial, WorldAt;
    var tail;
    w, tail := ReattachRun();
    HeadRun(tail, w);
    NothingWritten();
    assert REATTACH == [AttachTo(CH, 0)] + ([Append(CH, Done, 0)] + ([Append(CH, Done, 0)] + tail));
  }

  /** Detach, attach again, the third event. */
  lemma ReattachRun() returns (w: World, steps: seq<Step>)
    ensures steps == [Detach(CH), AttachTo(CH, 2), Append(CH, Done, 0)]
    ensures IsRun(UNBOUNDED, TIGHT, WorldAt(2, OneWaits()), steps, w) && ClosedWithinBound(w.conn)
  {
    hide LiveArrived, IsRun, LiveQueuedOn, DoneUpTo, LiveQueued, Next, Allowed, WorldAt;
    var c4 := OneWaits().(subs := [], leaked := 200000);
    var end := WorldAt(2, Reattached());
    assert end.conn == Reattached() by { WorldConn(2, Reattached()); }
    assert WorldAt(2, c4).conn == c4 by { WorldConn(2, c4); }
    assert WorldAt(2, OneWaits()).conn == OneWaits() by { WorldConn(2, OneWaits()); }
    ThirdCloses();
    LastStep(end);
    w := Next(UNBOUNDED, TIGHT, end, Append(CH, Done, 0));
    NoSubsUnique(c4);
    AttachStepIs(2, c4, Reattached());
    Ran(WorldAt(2, c4), AttachTo(CH, 2), [Append(CH, Done, 0)], w);
    DetachStepIs();
    Ran(WorldAt(2, OneWaits()), Detach(CH), [AttachTo(CH, 2)] + [Append(CH, Done, 0)], w);
    steps := [Detach(CH)] + ([AttachTo(CH, 2)] + [Append(CH, Done, 0)]);
  }

  /** Attach and the first two events. */
  lemma HeadRun(tail: seq<Step>, w: World)
    requires IsRun(UNBOUNDED, TIGHT, WorldAt(2, OneWaits()), tail, w)
    ensures IsRun(UNBOUNDED, TIGHT, WorldAt(0, OPENED),
                  [AttachTo(CH, 0)] + ([Append(CH, Done, 0)] + ([Append(CH, Done, 0)] + tail)), w)
  {
    var c1 := OPENED.(subs := AttachedAt(0, [], [], 0));
    NoSubsUnique(OPENED);
    FirstFills();
    SecondWaits();
    hide LiveArrived, IsRun, DoneUpTo, Next, Allowed, WorldAt, UniqueSubs;
    WorldConn(0, OPENED);
    WorldConn(0, c1);
    WorldConn(1, Full());
    AppendStepIs(1, Full(), OneWaits());
    Ran(WorldAt(1, Full()), Append(CH, Done, 0), tail, w);
    AppendStepIs(0, c1, Full());
    Ran(WorldAt(0, c1), Append(CH, Done, 0), [Append(CH, Done, 0)] + tail, w);
    AttachStepIs(0, OPENED, c1);
    Ran(WorldAt(0, OPENED), AttachTo(CH, 0), [Append(CH, Done, 0)] + ([Append(CH, Done, 0)] + tail), w);
  }

  lemma WorldConn(n: nat, c: Conn)
    ensures WorldAt(n, c).conn == c
  {
  }

  lemma NoSubsUnique(c: Conn)
    requires c.subs == []
    ensures UniqueSubs(c)
  {
  }

  lemma NothingWritten()
    ensures Initial(UNBOUNDED, WorldAt(0, OPENED))
  {
  }
}
