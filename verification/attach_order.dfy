/**
 * Where the reply to an attach stands among the frames it announces (daemon/connection.ts:649-659). The seat is
 * claimed inside the attach; a claim that makes waiting host-tool calls go out appends them to the very thread being
 * attached, while the reply is queued only when the attach returns.
 */
module AttachOrder {
  import opened Common
  import opened Wire
  import opened LogParser
  import opened OrderedMap
  import opened MemoryJournal
  import opened Connections
  import ControlRegistries
  import HostTools

  /** What an open connection is in between two inputs: its socket is full, or nothing waits. */
  ghost predicate Resting(c: Conn) {
    c.buffered >= SOCKET_HIGH_WATER || (c.control == [] && forall i | 0 <= i < |c.subs| :: !Ready(c.subs[i].1))
  }

  /** Pumping always leaves the connection resting, and only ever adds to what was sent. */
  lemma {:induction false} PumpRests(cfg: Config, c: Conn)
    requires UniqueSubs(c)
    ensures
      var d := Pumped(cfg, c);
      && Resting(d) && UniqueSubs(d) && c.wire <= d.wire && d.dead == c.dead
      && (c.buffered < SOCKET_HIGH_WATER && (c.control != [] || FirstReady(c.subs) < |c.subs|) ==> c.wire < d.wire)
    decreases Backlog(c)
  {
    hide Served, Unique, Put, Delete, LiveFreed, Ready;
    if c.buffered < SOCKET_HIGH_WATER {
      match Sent(cfg, c)
      case None => NoneReady(c.subs);
      case Some(d) =>
        SentShrinks(cfg, c);
        PumpRests(cfg, d);
    }
  }

  lemma NoneReady(subs: Pairs<Channel, Sub>)
    requires Served(subs).None?
    ensures FirstReady(subs) == |subs| && forall i | 0 <= i < |subs| :: !Ready(subs[i].1)
  {
    FirstIsFirst(subs);
  }

  lemma {:induction false} FirstIsFirst(subs: Pairs<Channel, Sub>)
    ensures forall i | 0 <= i < FirstReady(subs) :: !Ready(subs[i].1)
  {
    hide Ready;
    if subs != [] && !Ready(subs[0].1) {
      FirstIsFirst(subs[1..]);
      forall i | 0 <= i < FirstReady(subs) ensures !Ready(subs[i].1) {
        if i > 0 {
          assert subs[1..][i - 1] == subs[i];
        }
      }
    }
  }

  /** The events a claim appends, each reaching the connection as it is appended. */
  function ClaimArrived(cfg: Config, c: Conn, ch: Channel, entries: seq<Entry>): Conn
    requires UniqueSubs(c)
    ensures UniqueSubs(ClaimArrived(cfg, c, ch, entries))
    decreases |entries|
  {
    if entries == [] then c
    else
      ArrivedUnique(cfg, c, ch, entries[0]);
      ClaimArrived(cfg, LiveArrived(cfg, c, ch, entries[0]), ch, entries[1..])
  }

  lemma ArrivedUnique(cfg: Config, c: Conn, ch: Channel, entry: Entry)
    requires UniqueSubs(c)
    ensures UniqueSubs(LiveArrived(cfg, c, ch, entry))
  {
    hide Pumped;
    if !c.dead && Has(c.subs, ch) {
      QueuedUnique(cfg, c, ch, entry);
      PumpRests(cfg, LiveQueuedOn(cfg, c, ch, entry));
    }
  }

  /** An arrival on a followed channel sends at least one frame exactly when the socket has room. */
  lemma ArrivalSends(cfg: Config, c: Conn, ch: Channel, entry: Entry)
    requires UniqueSubs(c) && Has(c.subs, ch)
    ensures
      var d := LiveArrived(cfg, c, ch, entry);
      && c.wire <= d.wire && (d.dead || !c.dead)
      && (!d.dead && c.buffered < SOCKET_HIGH_WATER ==> c.wire < d.wire)
      && (c.buffered >= SOCKET_HIGH_WATER ==> d.wire == c.wire && (!d.dead ==> d.buffered == c.buffered && Has(d.subs, ch)))
  {
    hide Pumped, Put, Get;
    if !c.dead {
      var d := LiveQueuedOn(cfg, c, ch, entry);
      QueuedUnique(cfg, c, ch, entry);
      QueuedReady(cfg, c, ch, entry);
      PumpRests(cfg, d);
      if c.buffered >= SOCKET_HIGH_WATER {
        FullStays(cfg, d);
      }
    }
  }

  lemma FullStays(cfg: Config, c: Conn)
    requires UniqueSubs(c) && c.buffered >= SOCKET_HIGH_WATER
    ensures Pumped(cfg, c) == c
  {
  }

  lemma QueuedReady(cfg: Config, c: Conn, ch: Channel, entry: Entry)
    requires Has(c.subs, ch)
    ensures
      var subs := LiveQueuedOn(cfg, c, ch, entry).subs;
      FirstReady(subs) < |subs| && Has(subs, ch)
  {
    var s, item := Get(c.subs, ch).value, QueueItem(entry, true, false);
    var t := s.(queue := s.queue + [item], attach := s.attach.(appended := s.attach.appended + [entry]));
    GetPut(c.subs, ch, t, ch);
    var subs := Put(c.subs, ch, t);
    var i := FindGet(subs, ch);
    FirstIsFirst(subs);
  }

  lemma {:induction false} ClaimExtends(cfg: Config, c: Conn, ch: Channel, entries: seq<Entry>)
    requires UniqueSubs(c)
    ensures
      var d := ClaimArrived(cfg, c, ch, entries);
      && c.wire <= d.wire && (c.dead ==> d.dead)
      && (c.buffered >= SOCKET_HIGH_WATER && Has(c.subs, ch) && !d.dead ==> d.wire == c.wire)
    decreases |entries|
  {
    hide LiveArrived;
    if entries != [] {
      ArrivedUnique(cfg, c, ch, entries[0]);
      if Has(c.subs, ch) {
        ArrivalSends(cfg, c, ch, entries[0]);
      } else {
        NotFollowed(cfg, c, ch, entries[0]);
      }
      ClaimExtends(cfg, LiveArrived(cfg, c, ch, entries[0]), ch, entries[1..]);
    }
  }

  lemma NotFollowed(cfg: Config, c: Conn, ch: Channel, entry: Entry)
    requires UniqueSubs(c) && !Has(c.subs, ch)
    ensures LiveArrived(cfg, c, ch, entry) == c
  {
  }

  lemma AttachedUnique(cfg: Config, c: Conn, ch: Channel, j: Journal, afterSeq: nat)
    requires UniqueSubs(c)
    ensures
      var a := Attached(cfg, c, ch, j, afterSeq);
      UniqueSubs(a) && Has(a.subs, ch) && Get(a.subs, ch) == Some(NewSub(ch, j, afterSeq, |c.wire|))
  {
    hide NewSub;
    PutUnique(c.subs, ch, NewSub(ch, j, afterSeq, |c.wire|));
    GetPut(c.subs, ch, NewSub(ch, j, afterSeq, |c.wire|), ch);
  }

  /** The connection when the attach returns, its reply about to be queued. */
  function AttachedAndClaimed(
      cfg: Config, c: Conn, ch: Channel, j: Journal, afterSeq: nat, entries: seq<Entry>): (d: Conn)
    requires UniqueSubs(c)
    ensures UniqueSubs(d)
  {
    AttachedUnique(cfg, c, ch, j, afterSeq);
    ClaimArrived(cfg, Attached(cfg, c, ch, j, afterSeq), ch, entries)
  }

  /**
   * The reply to an attach is queued before any frame of the attach has gone out exactly when the claim appended
   * nothing or the socket was full. So the order the comment promises is not kept for a thread whose waiting calls go
   * out as its client attaches.
   */
  lemma NothingSentBeforeReply(cfg: Config, c: Conn, ch: Channel, j: Journal, afterSeq: nat, entries: seq<Entry>)
    requires UniqueSubs(c) && !AttachedAndClaimed(cfg, c, ch, j, afterSeq, entries).dead
    ensures AttachedAndClaimed(cfg, c, ch, j, afterSeq, entries).wire == c.wire
            <==> entries == [] || c.buffered >= SOCKET_HIGH_WATER
  {
    hide LiveArrived, NewSub, Put, Get, Unique;
    AttachedUnique(cfg, c, ch, j, afterSeq);
    var a := Attached(cfg, c, ch, j, afterSeq);
    ClaimExtends(cfg, a, ch, entries);
    if entries != [] {
      ArrivedUnique(cfg, a, ch, entries[0]);
      ArrivalSends(cfg, a, ch, entries[0]);
      ClaimExtends(cfg, LiveArrived(cfg, a, ch, entries[0]), ch, entries[1..]);
    }
  }

  // ---- which frame goes out first -----------------------------------------------------------------------------

  lemma PumpOnce(cfg: Config, c: Conn)
    requires UniqueSubs(c) && c.buffered < SOCKET_HIGH_WATER && Sent(cfg, c).Some?
    ensures UniqueSubs(Sent(cfg, c).value) && Pumped(cfg, c) == Pumped(cfg, Sent(cfg, c).value)
  {
    hide Sent;
    SentShrinks(cfg, c);
  }

  /** With room in the socket and no reply waiting, the next frame is the first waiting channel's. */
  lemma PumpSends(cfg: Config, c: Conn)
    requires UniqueSubs(c) && c.buffered < SOCKET_HIGH_WATER && NextFrame(cfg, c).0.Some?
    ensures c.wire + [NextFrame(cfg, c).0.value] <= Pumped(cfg, c).wire
  {
    hide Served, LiveFreed, Pumped, Unique;
    PumpOnce(cfg, c);
    SentShrinks(cfg, c);
    PumpRests(cfg, Sent(cfg, c).value);
  }

  lemma OnlyReady(c: Conn, ch: Channel, t: Sub, i: nat)
    requires UniqueSubs(c) && (forall k | 0 <= k < |c.subs| :: !Ready(c.subs[k].1))
    requires i < |Put(c.subs, ch, t)| && Ready(Put(c.subs, ch, t)[i].1)
    ensures Put(c.subs, ch, t)[i] == (ch, t)
  {
    hide Ready;
    var subs := Put(c.subs, ch, t);
    PutUnique(c.subs, ch, t);
    GetAt(subs, i);
    GetPut(c.subs, ch, t, subs[i].0);
    if subs[i].0 != ch {
      var k := FindGet(c.subs, subs[i].0);
    }
  }

  /**
   * When the claim appends something and the socket has room, the first frame out is the attach's own, ahead of the
   * reply; when it appends nothing, the reply is the first frame out.
   */
  lemma FirstFrameOut(cfg: Config, c: Conn, ch: Channel, j: Journal, afterSeq: nat, entries: seq<Entry>, reply: string)
    requires UniqueSubs(c) && Resting(c) && !c.dead && c.buffered < SOCKET_HIGH_WATER
    ensures
      var d := AttachedAndClaimed(cfg, c, ch, j, afterSeq, entries);
      && (entries != [] && !d.dead ==>
            |d.wire| > |c.wire| && !d.wire[|c.wire|].ControlFrame? && d.wire[|c.wire|].ch == ch)
      && (entries == [] && !ControlQueued(cfg, d, ControlFrame(reply)).dead ==>
            c.wire + [ControlFrame(reply)] <= ControlQueued(cfg, d, ControlFrame(reply)).wire)
  {
    AttachedUnique(cfg, c, ch, j, afterSeq);
    var a := Attached(cfg, c, ch, j, afterSeq);
    if entries == [] {
      ReplyGoesFirst(cfg, a, reply);
    } else {
      ArrivedUnique(cfg, a, ch, entries[0]);
      EventGoesFirst(cfg, c, ch, j, afterSeq, entries[0]);
      ClaimExtends(cfg, LiveArrived(cfg, a, ch, entries[0]), ch, entries[1..]);
    }
  }

  lemma ReplyGoesFirst(cfg: Config, c: Conn, reply: string)
    requires UniqueSubs(c) && c.control == [] && !c.dead && c.buffered < SOCKET_HIGH_WATER
    ensures !ControlQueued(cfg, c, ControlFrame(reply)).dead ==>
              c.wire + [ControlFrame(reply)] <= ControlQueued(cfg, c, ControlFrame(reply)).wire
  {
    hide Pumped, Served, Unique;
    var f := ControlFrame(reply);
    var d := c.(control := c.control + [f], controlBytes := c.controlBytes + cfg.len(f));
    if d.controlBytes <= cfg.maxOutboundBytes {
      PumpSends(cfg, d);
    }
  }

  lemma EventGoesFirst(cfg: Config, c: Conn, ch: Channel, j: Journal, afterSeq: nat, entry: Entry)
    requires UniqueSubs(c) && Resting(c) && !c.dead && c.buffered < SOCKET_HIGH_WATER
    requires UniqueSubs(Attached(cfg, c, ch, j, afterSeq))
    ensures
      var d := LiveArrived(cfg, Attached(cfg, c, ch, j, afterSeq), ch, entry);
      !d.dead ==> |d.wire| > |c.wire| && c.wire <= d.wire && !d.wire[|c.wire|].ControlFrame? && d.wire[|c.wire|].ch == ch
  {
    hide Pumped, Unique, Ready, Replayed, NewSub, Served, LiveFreed, FirstReady, Put, Get;
    AttachedUnique(cfg, c, ch, j, afterSeq);
    var a := Attached(cfg, c, ch, j, afterSeq);
    var q := LiveQueuedOn(cfg, a, ch, entry);
    QueuedUnique(cfg, a, ch, entry);
    FirstQueued(c, ch, j, afterSeq, Get(a.subs, ch).value, entry);
    if a.liveBytes + cfg.len(FrameOf(ch, QueueItem(entry, true, false))) + a.buffered <= cfg.maxOutboundBytes {
      PumpSends(cfg, q);
    }
  }

  /** With no other channel waiting, the one just attached is served first. */
  lemma FirstQueued(c: Conn, ch: Channel, j: Journal, afterSeq: nat, s: Sub, entry: Entry)
    requires UniqueSubs(c) && (forall k | 0 <= k < |c.subs| :: !Ready(c.subs[k].1))
    requires s == NewSub(ch, j, afterSeq, |c.wire|)
    ensures
      var t := s.(queue := s.queue + [QueueItem(entry, true, false)],
                  attach := s.attach.(appended := s.attach.appended + [entry]));
      var subs := Put(Put(c.subs, ch, s), ch, t);
      && Served(subs).Some? && !Served(subs).value.1.ControlFrame? && Served(subs).value.1.ch == ch
  {
    hide Replayed, Put, Get, Unique, FirstReady;
    var t := s.(queue := s.queue + [QueueItem(entry, true, false)],
                attach := s.attach.(appended := s.attach.appended + [entry]));
    PutOver(c.subs, ch, s, t);
    var subs := Put(c.subs, ch, t);
    GetPut(c.subs, ch, t, ch);
    var i := FindGet(subs, ch);
    FirstIsFirst(subs);
    OnlyReady(c, ch, t, FirstReady(subs));
  }

  lemma {:induction false} PutOver(subs: Pairs<Channel, Sub>, ch: Channel, s: Sub, u: Sub)
    ensures Put(Put(subs, ch, s), ch, u) == Put(subs, ch, u)
  {
    if subs != [] && subs[0].0 != ch {
      PutOver(subs[1..], ch, s, u);
    }
  }

  // ---- what the claim appends ---------------------------------------------------------------------------------

  type Daemon = ControlRegistries.Daemon

  type Controller = ControlRegistries.Controller

  /** What the broker emitted on the thread between two states. */
  function EmittedOn(thread: string, before: seq<HostTools.Emitted>, after: seq<HostTools.Emitted>): seq<WireEvent> {
    if |after| <= |before| then []
    else
      EmittedOn(thread, before, after[..|after| - 1])
      + (if after[|after| - 1].thread == thread then [after[|after| - 1].event] else [])
  }

  /** The entries a journal makes of the events. */
  function Numbered(l: Limits, j: Journal, events: seq<WireEvent>, ts: int): (es: seq<Entry>)
    ensures |es| == |events|
    decreases |events|
  {
    if events == [] then []
    else [NextEntry(j, events[0], ts)] + Numbered(l, Appended(l, j, events[0], ts), events[1..], ts)
  }

  /**
   * The claim will make calls go out: it succeeds and moves the seat to the connection that supplied the thread's
   * manifest, and a call of the thread is waiting unissued. All of this can be read off the daemon before the attach.
   */
  ghost predicate WillIssue(d: Daemon, thread: string, who: Controller) {
    && ControlRegistries.MayClaim(d, thread, who)
    && (Get(d.seats, thread).Some? ==> Get(d.seats, thread).value.id != who.id)
    && thread in d.broker.owners && d.broker.owners[thread] == who.id && thread !in d.broker.attached
    && exists i | 0 <= i < |d.broker.pending| ::
         d.broker.pending[i].1.thread == thread && !d.broker.pending[i].1.issued
  }

  lemma {:induction false} IssuesNothingIff(thread: string, m: Pairs<string, HostTools.Call>)
    ensures HostTools.IssueEvents(thread, m) != [] <==> exists i | 0 <= i < |m| :: m[i].1.thread == thread && !m[i].1.issued
  {
    if m != [] {
      IssuesNothingIff(thread, m[1..]);
      assert forall i | 0 < i < |m| :: m[i] == m[1..][i - 1];
      assert forall i | 0 <= i < |m[1..]| :: m[1..][i] == m[i + 1];
    }
  }

  lemma {:induction false} EmittedOnAll(thread: string, log: seq<HostTools.Emitted>, more: seq<HostTools.Emitted>)
    requires forall e | e in more :: e.thread == thread
    ensures |EmittedOn(thread, log, log + more)| == |more|
    decreases |more|
  {
    if more != [] {
      var less := more[..|more| - 1];
      assert (log + more)[..|log + more| - 1] == log + less;
      assert more[|more| - 1] in more && forall e | e in less :: e in more;
      EmittedOnAll(thread, log, less);
    } else {
      assert log + more == log;
    }
  }

  /** A claim appends something to the thread's journal exactly when it will issue a waiting call. */
  lemma ClaimIssuesIff(t: HostTools.Timing, d: Daemon, thread: string, who: Controller)
    requires ControlRegistries.DaemonInv(t, d)
    ensures EmittedOn(thread, d.broker.log, ControlRegistries.Claimed(t, d, thread, who).broker.log) != []
            <==> WillIssue(d, thread, who)
  {
    var events := HostTools.IssueEvents(thread, d.broker.pending);
    IssuesNothingIff(thread, d.broker.pending);
    HostTools.IssueEventsOn(thread, d.broker.pending);
    EmittedOnAll(thread, d.broker.log, events);
    EmittedOnAll(thread, d.broker.log, []);
    assert d.broker.log + [] == d.broker.log;
    assert ControlRegistries.SeatsAgree(d, thread);
  }

  // ---- the whole command --------------------------------------------------------------------------------------

  function ThreadChannel(thread: string): Channel {
    "t:" + thread
  }

  /** An attach may claim when it does not only observe and its token has the scope. */
  datatype AttachRequest = AttachRequest(thread: string, who: Controller, claims: bool, afterSeq: nat, at: int)

  function Seats(t: HostTools.Timing, d: Daemon, r: AttachRequest): Daemon {
    if r.claims then ControlRegistries.Claimed(t, d, r.thread, r.who) else d
  }

  /** What the attach's claim appends to the thread's journal. */
  function Claimed(l: Limits, t: HostTools.Timing, d: Daemon, j: Journal, r: AttachRequest): seq<Entry> {
    Numbered(l, j, EmittedOn(r.thread, d.broker.log, Seats(t, d, r).broker.log), r.at)
  }

  /** The connection when the attach returns. */
  function AttachReturned(
      cfg: Config, l: Limits, t: HostTools.Timing, d: Daemon, c: Conn, j: Journal, r: AttachRequest): (after: Conn)
    requires UniqueSubs(c)
    ensures UniqueSubs(after)
  {
    AttachedAndClaimed(cfg, c, ThreadChannel(r.thread), j, r.afterSeq, Claimed(l, t, d, j, r))
  }

  lemma ClaimedIff(l: Limits, t: HostTools.Timing, d: Daemon, j: Journal, r: AttachRequest)
    requires ControlRegistries.DaemonInv(t, d)
    ensures Claimed(l, t, d, j, r) != [] <==> r.claims && WillIssue(d, r.thread, r.who)
  {
    hide WillIssue, ControlRegistries.DaemonInv, ControlRegistries.Claimed;
    ClaimIssuesIff(t, d, r.thread, r.who);
  }

  /**
   * For an attach to a daemon in any reachable state: nothing of it has gone out when its reply is queued if and only
   * if it claims nothing, or claims a seat that makes no waiting call go out, or the socket is full.
   */
  lemma ReplyBeforeFramesIff(
      cfg: Config, l: Limits, t: HostTools.Timing, d: Daemon, c: Conn, j: Journal, r: AttachRequest)
    requires ControlRegistries.DaemonInv(t, d) && UniqueSubs(c) && !AttachReturned(cfg, l, t, d, c, j, r).dead
    ensures AttachReturned(cfg, l, t, d, c, j, r).wire == c.wire
            <==> !(r.claims && WillIssue(d, r.thread, r.who)) || c.buffered >= SOCKET_HIGH_WATER
  {
    hide WillIssue, ControlRegistries.DaemonInv, Claimed, AttachedAndClaimed;
    ClaimedIff(l, t, d, j, r);
    NothingSentBeforeReply(cfg, c, ThreadChannel(r.thread), j, r.afterSeq, Claimed(l, t, d, j, r));
  }

  /** And then, with room in the socket, the attach's own frame is the first out; otherwise the reply is. */
  lemma ReplyIsFirstIff(
      cfg: Config, l: Limits, t: HostTools.Timing, d: Daemon, c: Conn, j: Journal, r: AttachRequest, reply: string)
    requires ControlRegistries.DaemonInv(t, d)
    requires UniqueSubs(c) && Resting(c) && !c.dead && c.buffered < SOCKET_HIGH_WATER
    requires !ControlQueued(cfg, AttachReturned(cfg, l, t, d, c, j, r), ControlFrame(reply)).dead
    ensures
      var after := ControlQueued(cfg, AttachReturned(cfg, l, t, d, c, j, r), ControlFrame(reply));
      && |after.wire| > |c.wire|
      && (after.wire[|c.wire|] == ControlFrame(reply) <==> !(r.claims && WillIssue(d, r.thread, r.who)))
  {
    hide WillIssue, ControlRegistries.DaemonInv, Claimed, AttachedAndClaimed, Resting, Pumped, Unique;
    ClaimedIff(l, t, d, j, r);
    var es := Claimed(l, t, d, j, r);
    FirstFrameOut(cfg, c, ThreadChannel(r.thread), j, r.afterSeq, es, reply);
    var back := AttachReturned(cfg, l, t, d, c, j, r);
    if !back.dead {
      ReplyExtends(cfg, back, reply);
    }
    if es != [] {
      AttachedUnique(cfg, c, ThreadChannel(r.thread), j, r.afterSeq);
    }
  }

  lemma ReplyExtends(cfg: Config, c: Conn, reply: string)
    requires UniqueSubs(c)
    ensures c.wire <= ControlQueued(cfg, c, ControlFrame(reply)).wire
  {
    hide Pumped, Unique;
    var f := ControlFrame(reply);
    PumpRests(cfg, c.(control := c.control + [f], controlBytes := c.controlBytes + cfg.len(f)));
  }

  // ---- such a daemon is reached -------------------------------------------------------------------------------

  /**
   * One connection opens a session, taking the seat and supplying the manifest, then detaches; a call is made and
   * waits.
   */
  function DetachedAndCalled(who: Controller): seq<ControlRegistries.DaemonStep> {
    [ControlRegistries.Claim("th", who),
     ControlRegistries.BrokerStep(HostTools.SetManifest("th", map["notes" := {"read"}], Some(who.id))),
     ControlRegistries.Release("th", who.id),
     ControlRegistries.BrokerStep(HostTools.MakeCall("call", "th", "notes", "read", false, false))]
  }

  function DetachedDaemon(t: HostTools.Timing, who: Controller): Daemon {
    var call := HostTools.Call("th", 0, false, Some(t.graceMs), None);
    ControlRegistries.Daemon([], HostTools.START.(
        owners := map["th" := who.id], manifests := map["th" := map["notes" := {"read"}]], pending := [("call", call)]))
  }

  lemma DetachedIsReached(t: HostTools.Timing, who: Controller)
    ensures ControlRegistries.IsDaemonRun(
      t, ControlRegistries.Daemon([], HostTools.START), DetachedAndCalled(who), DetachedDaemon(t, who))
    ensures ControlRegistries.DaemonInv(t, DetachedDaemon(t, who)) && WillIssue(DetachedDaemon(t, who), "th", who)
  {
    var d0 := ControlRegistries.Daemon([], HostTools.START);
    var steps := DetachedAndCalled(who);
    var d1 := ControlRegistries.DaemonNext(t, d0, steps[0]);
    var d2 := ControlRegistries.DaemonNext(t, d1, steps[1]);
    var d3 := ControlRegistries.DaemonNext(t, d2, steps[2]);
    assert d1 == ControlRegistries.Daemon([("th", who)], HostTools.START.(seats := map["th" := who.id]));
    assert d2.seats == d1.seats && d2.broker.attached == {"th"} && d2.broker.owners == map["th" := who.id];
    assert d3.seats == [] && d3.broker.attached == {} && d3.broker.seats == map[];
    assert d3.broker.pending == [] && d3.broker.log == [];
    assert HostTools.Refused(d3.broker, "th", "notes", "read", false, false).None?;
    assert ControlRegistries.DaemonNext(t, d3, steps[3]) == DetachedDaemon(t, who);
    assert steps[1..][1..] == steps[2..] && steps[2..][1..] == steps[3..] && steps[3..][1..] == [];
    RunOfOne(t, d3, steps[3], DetachedDaemon(t, who));
    RunThen(t, d2, steps[2], steps[3..], DetachedDaemon(t, who));
    RunThen(t, d1, steps[1], steps[2..], DetachedDaemon(t, who));
    RunThen(t, d0, steps[0], steps[1..], DetachedDaemon(t, who));
    HostTools.StartInv(t);
    ControlRegistries.DaemonRunKeepsInv(t, d0, steps, DetachedDaemon(t, who));
    assert DetachedDaemon(t, who).broker.pending[0].1.thread == "th";
  }

  lemma RunOfOne(t: HostTools.Timing, d: Daemon, step: ControlRegistries.DaemonStep, end: Daemon)
    requires ControlRegistries.DaemonAllowed(d, step) && ControlRegistries.DaemonNext(t, d, step) == end
    ensures ControlRegistries.IsDaemonRun(t, d, [step], end)
  {
    assert [step][1..] == [];
  }

  lemma RunThen(t: HostTools.Timing, d: Daemon, step: ControlRegistries.DaemonStep,
                rest: seq<ControlRegistries.DaemonStep>, end: Daemon)
    requires ControlRegistries.DaemonAllowed(d, step)
    requires ControlRegistries.IsDaemonRun(t, ControlRegistries.DaemonNext(t, d, step), rest, end)
    ensures ControlRegistries.IsDaemonRun(t, d, [step] + rest, end)
  {
    assert ([step] + rest)[1..] == rest;
  }

  /**
   * The client comes back on the same connection: with its socket empty, the waiting call goes out on the channel, and
   * the reply that was to announce the channel follows it.
   */
  lemma CallOvertakesReply(t: HostTools.Timing, l: Limits, who: Controller)
    ensures
      var cfg := Connections.Config(1000, (f: Frame) => 1);
      var r := AttachRequest("th", who, true, 0, 0);
      var after := ControlQueued(cfg, AttachReturned(cfg, l, t, DetachedDaemon(t, who), OPENED, FRESH, r), ControlFrame("ack"));
      && !after.dead && |after.wire| > 0 && after.wire[0] != ControlFrame("ack")
  {
    hide Pumped, WillIssue, ControlRegistries.DaemonInv, AttachReturned, ControlQueued;
    var cfg := Connections.Config(1000, (f: Frame) => 1);
    var r := AttachRequest("th", who, true, 0, 0);
    var d := DetachedDaemon(t, who);
    DetachedIsReached(t, who);
    StaysOpen(cfg, l, t, who, r, "ack");
    ReplyIsFirstIff(cfg, l, t, d, OPENED, FRESH, r, "ack");
  }

  lemma {:induction false} PumpKeepsNoControl(cfg: Config, c: Conn)
    requires UniqueSubs(c) && c.control == []
    ensures Pumped(cfg, c).control == [] && Pumped(cfg, c).controlBytes == c.controlBytes
    decreases Backlog(c)
  {
    hide Served, LiveFreed, Unique;
    if c.buffered < SOCKET_HIGH_WATER && Sent(cfg, c).Some? {
      SentShrinks(cfg, c);
      PumpKeepsNoControl(cfg, Sent(cfg, c).value);
    }
  }

  lemma OneCallGoesOut(l: Limits, t: HostTools.Timing, who: Controller, r: AttachRequest)
    requires r == AttachRequest("th", who, true, 0, 0)
    ensures |Claimed(l, t, DetachedDaemon(t, who), FRESH, r)| == 1
  {
    hide Appended;
    var d := DetachedDaemon(t, who);
    var m := d.broker.pending;
    assert m[1..] == [];
    assert HostTools.IssueEvents("th", m) == [HostTools.Emitted("th", ToolCall("call"))];
    HostTools.IssueEventsOn("th", m);
    EmittedOnAll("th", d.broker.log, HostTools.IssueEvents("th", m));
  }

  lemma StaysOpen(cfg: Config, l: Limits, t: HostTools.Timing, who: Controller, r: AttachRequest, reply: string)
    requires r == AttachRequest("th", who, true, 0, 0) && cfg == Connections.Config(1000, (f: Frame) => 1)
    ensures !ControlQueued(cfg, AttachReturned(cfg, l, t, DetachedDaemon(t, who), OPENED, FRESH, r), ControlFrame(reply)).dead
  {
    hide DetachedDaemon, Claimed, AttachedAndClaimed, ControlQueued;
    OneCallGoesOut(l, t, who, r);
    OneEventStaysOpen(cfg, ThreadChannel("th"), Claimed(l, t, DetachedDaemon(t, who), FRESH, r), reply);
  }

  lemma OneEventStaysOpen(cfg: Config, ch: Channel, es: seq<Entry>, reply: string)
    requires |es| == 1 && cfg == Connections.Config(1000, (f: Frame) => 1)
    ensures UniqueSubs(OPENED)
    ensures !ControlQueued(cfg, AttachedAndClaimed(cfg, OPENED, ch, FRESH, 0, es), ControlFrame(reply)).dead
  {
    assert UniqueSubs(OPENED);
    hide Pumped, Unique, NewSub, LiveArrived, ControlQueued, Put, Get;
    AttachedUnique(cfg, OPENED, ch, FRESH, 0);
    var a := Attached(cfg, OPENED, ch, FRESH, 0);
    assert es[1..] == [];
    ArrivedUnique(cfg, a, ch, es[0]);
    ArrivalStaysOpen(cfg, a, ch, es[0], reply);
    assert ClaimArrived(cfg, LiveArrived(cfg, a, ch, es[0]), ch, es[1..]) == LiveArrived(cfg, a, ch, es[0]);
  }

  /** An arrival and a reply within the bounds leave the connection open. */
  lemma ArrivalStaysOpen(cfg: Config, c: Conn, ch: Channel, e: Entry, reply: string)
    requires UniqueSubs(c) && Has(c.subs, ch) && !c.dead && c.control == [] && c.controlBytes == 0
    requires c.liveBytes + cfg.len(FrameOf(ch, QueueItem(e, true, false))) + c.buffered <= cfg.maxOutboundBytes
    requires cfg.len(ControlFrame(reply)) <= cfg.maxOutboundBytes
    ensures UniqueSubs(LiveArrived(cfg, c, ch, e))
    ensures !ControlQueued(cfg, LiveArrived(cfg, c, ch, e), ControlFrame(reply)).dead
  {
    hide Pumped, Unique, Put, Get;
    ArrivedUnique(cfg, c, ch, e);
    var q := LiveQueuedOn(cfg, c, ch, e);
    QueuedUnique(cfg, c, ch, e);
    PumpRests(cfg, q);
    PumpKeepsNoControl(cfg, q);
    var back := Pumped(cfg, q);
    var f := ControlFrame(reply);
    PumpRests(cfg, back.(control := back.control + [f], controlBytes := back.controlBytes + cfg.len(f)));
  }
}
