/**
 * The session host together with its disks, crashes included: each thread's journal lives in a store, a restart reads
 * the very files the stores left (`daemon/threadHost.ts:148-177`), and the run goes on from what was read.
 */
module HostRuns {
  import opened Common
  import opened OrderedMap
  import opened Wire
  import opened LogParser
  import opened MemoryJournal
  import opened DiskJournals
  import opened ThreadRecovery
  import opened BoundaryEvents
  import opened ThreadHosts
  import opened Restarts
  import D = DiskDurability
  import JournalMeaning

  datatype Host = Host(threads: Threads, stores: map<string, Store>)

  const NO_HOST := Host([], map[])

  // ---- what a step does to the disks --------------------------------------------------------------------------

  /** The store of the thread so far; a new thread's journal is opened where there is no file. */
  ghost predicate StoreSoFar(cfg: Config, stores: map<string, Store>, t: string, s: Store) {
    if t in stores then s == stores[t] else JustOpened(cfg, s)
  }

  ghost predicate JustOpened(cfg: Config, s: Store) {
    exists epoch :: ReadLog(cfg.codec, []).validBytes <= 0 && s == Recovered(cfg, EMPTY_DISK, epoch)
  }

  ghost predicate Carried(cfg: Config, before: Store, after: Store) {
    exists ops :: AllDone(cfg, before, ops) == after
  }

  /** By appends, acks, compactions and flushes at any time, to where memory is the thread's journal. */
  ghost predicate StoreFollows(cfg: Config, stores: map<string, Store>, t: string, after: Store, j: Journal) {
    after.mem == j && exists s :: StoreSoFar(cfg, stores, t, s) && Carried(cfg, s, after)
  }

  /** What a crash leaves of the thread: its disk, at any byte of a write of buffered lines, and its recipe. */
  ghost predicate LeftBehind(cfg: Config, rt: Runtime, s: Store, image: Image) {
    && image.cfg == cfg && image.recipe == rt.recipe
    && exists k: nat ::
         k <= |Serialize(cfg.codec, s.buffer)| && (s.needsRewrite ==> k == 0) && image.disk == D.Torn(cfg, s, k)
  }

  ghost predicate AllLeftBehind(cfg: Config, h: Host, images: Pairs<string, Image>) {
    forall t ::
      && (Has(images, t) <==> Has(h.threads, t))
      && (Has(images, t) && t in h.stores ==>
            LeftBehind(cfg, Get(h.threads, t).value, h.stores[t], Get(images, t).value))
  }

  ghost predicate Steps(cfg: Config, caps: Caps, h: Host, step: Step, ts: int, after: Host) {
    && Enabled(h.threads, step) && after.threads == Next(cfg.limits, caps, h.threads, step, ts)
    && OneStoreEach(after)
    && if step.Restart? then AllLeftBehind(cfg, h, step.images) && AllReborn(step.images, after.stores)
       else AllFollow(cfg, h, after)
  }

  ghost predicate OneStoreEach(h: Host) {
    forall t :: t in h.stores <==> Has(h.threads, t)
  }

  ghost predicate AllReborn(images: Pairs<string, Image>, stores: map<string, Store>) {
    forall t | t in stores :: Has(images, t) && stores[t] == Reborn(Get(images, t).value)
  }

  ghost predicate AllFollow(cfg: Config, h: Host, after: Host) {
    forall t | t in after.stores && Has(after.threads, t) ::
      StoreFollows(cfg, h.stores, t, after.stores[t], Get(after.threads, t).value.journal)
  }

  /** The disk matches the memory, no boundary event waits, and the memory is the thread's journal. */
  ghost predicate HostOk(cfg: Config, caps: Caps, h: Host) {
    && HostInv(caps, h.threads)
    && forall t ::
         && (t in h.stores <==> Has(h.threads, t))
         && (t in h.stores ==> Life(cfg, h.stores[t]) && h.stores[t].mem == Get(h.threads, t).value.journal)
  }

  lemma SoFarLives(cfg: Config, caps: Caps, h: Host, t: string, s: Store)
    requires DaemonConfig(cfg) && HostOk(cfg, caps, h) && StoreSoFar(cfg, h.stores, t, s)
    ensures Life(cfg, s)
  {
    hide Life, Recovered, HostInv;
    if t !in h.stores {
      var epoch :| ReadLog(cfg.codec, []).validBytes <= 0 && s == Recovered(cfg, EMPTY_DISK, epoch);
      RecoveredLives(cfg, EMPTY_DISK, epoch);
    }
  }

  lemma FollowsLives(cfg: Config, caps: Caps, h: Host, t: string, after: Store, j: Journal)
    requires DaemonConfig(cfg) && HostOk(cfg, caps, h) && StoreFollows(cfg, h.stores, t, after, j)
    ensures Life(cfg, after) && after.mem == j
  {
    hide Life, HostOk, StoreSoFar, DaemonConfig, AllDone;
    var s :| StoreSoFar(cfg, h.stores, t, s) && Carried(cfg, s, after);
    SoFarLives(cfg, caps, h, t, s);
    var ops :| AllDone(cfg, s, ops) == after;
    AllDoneKeepsLife(cfg, s, ops);
  }

  lemma {:induction false} RestartedGet(images: Pairs<string, Image>, t: string)
    ensures Has(Restarted(images), t) <==> Has(images, t)
    ensures Has(images, t) ==>
      var image := Get(images, t).value;
      Get(Restarted(images), t) == Some(NewRuntime(Reborn(image).mem).(recipe := image.recipe))
  {
    hide Reborn;
    if images != [] {
      RestartedGet(images[1..], t);
      assert Restarted(images)[1..] == Restarted(images[1..]);
    }
  }

  lemma {:induction false} GetIn<V>(m: Pairs<string, V>, t: string)
    requires Has(m, t)
    ensures (t, Get(m, t).value) in m
  {
    if m[0].0 == t {
      assert m[0] in m;
    } else {
      GetIn(m[1..], t);
    }
  }

  lemma RestartKeepsOk(cfg: Config, caps: Caps, h: Host, images: Pairs<string, Image>, ts: int, after: Host)
    requires DaemonConfig(cfg) && HostOk(cfg, caps, h) && Steps(cfg, caps, h, Restart(images), ts, after)
    ensures HostOk(cfg, caps, after)
  {
    hide HostInv, Life, Reborn, DaemonConfig, Readable, Restarted, LeftBehind, Get;
    StepKeepsInv(cfg.limits, caps, h.threads, Restart(images), ts);
    forall t | t in after.stores
      ensures Life(cfg, after.stores[t]) && after.stores[t].mem == Get(after.threads, t).value.journal
    {
      RestartedGet(images, t);
      GetIn(images, t);
      OkStore(cfg, caps, h, t);
      assert LeftBehind(cfg, Get(h.threads, t).value, h.stores[t], Get(images, t).value);
      ImageConfig(cfg, Get(h.threads, t).value, h.stores[t], Get(images, t).value);
      RebornLives(Get(images, t).value);
    }
  }

  lemma OkStore(cfg: Config, caps: Caps, h: Host, t: string)
    requires HostOk(cfg, caps, h)
    ensures Has(h.threads, t) ==> t in h.stores && h.stores[t].mem == Get(h.threads, t).value.journal
  {
    hide HostInv, Life;
  }

  lemma ImageConfig(cfg: Config, rt: Runtime, s: Store, image: Image)
    requires LeftBehind(cfg, rt, s, image)
    ensures image.cfg == cfg && image.recipe == rt.recipe
  {
  }

  lemma StepKeepsOk(cfg: Config, caps: Caps, h: Host, step: Step, ts: int, after: Host)
    requires DaemonConfig(cfg) && HostOk(cfg, caps, h) && Steps(cfg, caps, h, step, ts, after)
    ensures HostOk(cfg, caps, after)
  {
    if step.Restart? {
      RestartKeepsOk(cfg, caps, h, step.images, ts, after);
    } else {
      hide HostInv, DaemonConfig, Enabled, Next, AllFollow;
      StepKeepsInv(cfg.limits, caps, h.threads, step, ts);
      FollowedOk(cfg, caps, h, after);
    }
  }

  lemma FollowedOk(cfg: Config, caps: Caps, h: Host, after: Host)
    requires DaemonConfig(cfg) && HostOk(cfg, caps, h) && AllFollow(cfg, h, after) && OneStoreEach(after)
    requires HostInv(caps, after.threads)
    ensures HostOk(cfg, caps, after)
  {
    hide HostInv, Life, DaemonConfig, StoreFollows, Get;
    forall t | t in after.stores
      ensures Life(cfg, after.stores[t]) && after.stores[t].mem == Get(after.threads, t).value.journal
    {
      FollowsLives(cfg, caps, h, t, after.stores[t], Get(after.threads, t).value.journal);
    }
  }

  // ---- whole runs ---------------------------------------------------------------------------------------------

  /** `hosts` are the states gone through, the first included. */
  ghost predicate IsHostRun(cfg: Config, caps: Caps, hosts: seq<Host>, steps: seq<(Step, int)>) {
    && |hosts| == |steps| + 1
    && forall i | 0 <= i < |steps| :: Steps(cfg, caps, hosts[i], steps[i].0, steps[i].1, hosts[i + 1])
  }

  lemma NoHostOk(cfg: Config, caps: Caps)
    ensures HostOk(cfg, caps, NO_HOST)
  {
  }

  lemma {:induction false} RunKeepsOk(cfg: Config, caps: Caps, hosts: seq<Host>, steps: seq<(Step, int)>, n: nat)
    requires DaemonConfig(cfg) && IsHostRun(cfg, caps, hosts, steps) && hosts[0] == NO_HOST && n <= |steps|
    ensures HostOk(cfg, caps, hosts[n])
    decreases n
  {
    hide DaemonConfig, HostOk, Steps;
    if n == 0 {
      NoHostOk(cfg, caps);
    } else {
      RunKeepsOk(cfg, caps, hosts, steps, n - 1);
      StepKeepsOk(cfg, caps, hosts[n - 1], steps[n - 1].0, steps[n - 1].1, hosts[n]);
    }
  }

  /** What the new process reads of a thread, and what it then appends to close it out. */
  function ReadBack(image: Image): Checkpoint {
    RecoveredMem(image.cfg, image.disk).checkpoint
  }

  function ClosingEvents(image: Image): seq<WireEvent> {
    RecoveryEvents(ReadBack(image), image.native)
  }

  /** The journal a new process reads, with the events that close it out. */
  function AsClosed(image: Image): Journal {
    AppendEach(image.cfg.limits, RecoveredMem(image.cfg, image.disk), ClosingEvents(image), image.ts)
  }

  lemma RebornIs(image: Image)
    requires Readable(image)
    ensures Reborn(image).mem == Compacted(image.cfg.limits, AsClosed(image), image.now)
    ensures !JournalMeaning.TooMuch(image.cfg.limits, |Reborn(image).mem.entries|, Reborn(image).mem.bytes)
  {
    hide Compacted, CompactedTo, RecoveryEvents, RecoveredMem, Recovered, ClosedOut, D.Inv, ReadLog, AppendEach;
    var cfg := image.cfg;
    D.OpenEstablishesInv(cfg, image.disk, image.epoch);
    var s := Recovered(cfg, image.disk, image.epoch);
    ClosedOutIs(cfg, s, image.native, image.ts);
    RecoveringOnceIsEnough(cfg, image.disk, image.epoch, image.native, image.ts, image.now);
    var t := ClosedOut(cfg, s, image.native, image.ts);
    OpenStore(cfg, t);
    CompactedAtRest(cfg, t, image.now);
    ValidStore(cfg, t);
    var young, kept := JournalMeaning.CompactionLetsGoOf(cfg.limits, t.mem, image.now);
  }

  lemma ValidStore(cfg: Config, s: Store)
    requires D.Inv(cfg, s)
    ensures Valid(cfg.limits, s.mem)
  {
  }

  lemma ClosedOutIs(cfg: Config, s: Store, native: string, ts: int)
    requires D.Inv(cfg, s)
    ensures ClosedOut(cfg, s, native, ts).mem
         == AppendEach(cfg.limits, s.mem, RecoveryEvents(s.mem.checkpoint, native), ts)
  {
    hide Flushed, StoreEach, D.Inv, Appended;
    var events := RecoveryEvents(s.mem.checkpoint, native);
    StoreEachKeeps(cfg, s, events, ts);
    OpenStore(cfg, StoreEach(cfg, s, events, ts));
    FlushedNothingWaits(cfg, StoreEach(cfg, s, events, ts), true);
  }

  /** The thread as it was, the thread as it comes back. */
  ghost predicate Survives(rt: Runtime, image: Image, back: Runtime) {
    && back.driver == None && back.recipe == rt.recipe && back.delivered == []
    && ThreadRecovery.Settled(back.journal.checkpoint)
    && !JournalMeaning.TooMuch(image.cfg.limits, |back.journal.entries|, back.journal.bytes)
    && back.journal == Compacted(image.cfg.limits, AsClosed(image), image.now)
    && LateState(rt.journal.checkpoint, ReadBack(image), rt.journal.lowWater)
    && forall id ::
         Closes(ClosingEvents(image), id)
         == One(exists e :: e in rt.journal.checkpoint.openRequests && OpenId(e) == Some(id)
                            && e.seqNo > rt.journal.lowWater)
  }

  lemma ThreadSurvives(cfg: Config, rt: Runtime, s: Store, image: Image)
    requires ThreadHosts.Inv(rt) && Life(cfg, s) && s.mem == rt.journal && LeftBehind(cfg, rt, s, image)
    requires Readable(image)
    ensures Survives(rt, image, NewRuntime(Reborn(image).mem).(recipe := image.recipe))
  {
    hide ThreadHosts.Inv, Life, Reborn, RecoveredMem, RecoveryEvents, Closes, OpenId, ThreadRecovery.Settled, LateState;
    hide JournalMeaning.TooMuch, Compacted, AppendEach;
    var k: nat :| k <= |Serialize(cfg.codec, s.buffer)| && (s.needsRewrite ==> k == 0) && image.disk == D.Torn(cfg, s, k);
    assert image.disk.idx == s.disk.idx;
    RebornSettled(image);
    RebornIs(image);
    StateSurvivesCrash(cfg, s, k, image.epoch);
    forall id
      ensures Closes(ClosingEvents(image), id)
              == One(exists e :: e in rt.journal.checkpoint.openRequests && OpenId(e) == Some(id)
                                 && e.seqNo > rt.journal.lowWater)
    {
      PendingExpiresOnce(cfg, rt, s, k, image.epoch, image.native, id);
    }
  }

  /**
   * In every run of the host with its disks, at every crash in it, whenever it comes: exactly the threads there were come
   * back, each with its recipe, without a driver, settled, compacted and within its bounds; the new process read the session
   * state it had unless that record was evicted; and it closed each request that was waiting exactly once unless its record
   * was evicted, and no other.
   */
  lemma EveryCrashIsSurvived(cfg: Config, caps: Caps, hosts: seq<Host>, steps: seq<(Step, int)>, n: nat, t: string)
    requires DaemonConfig(cfg) && IsHostRun(cfg, caps, hosts, steps) && hosts[0] == NO_HOST
    requires n < |steps| && steps[n].0.Restart?
    ensures Has(hosts[n + 1].threads, t) <==> Has(hosts[n].threads, t)
    ensures
      Has(hosts[n].threads, t) ==>
        && Has(steps[n].0.images, t)
        && Survives(Get(hosts[n].threads, t).value, Get(steps[n].0.images, t).value,
                    Get(hosts[n + 1].threads, t).value)
  {
    hide DaemonConfig, Life, Survives, LeftBehind, Get, Restarted, Readable, Reborn, HostInv;
    RunKeepsOk(cfg, caps, hosts, steps, n);
    var images := steps[n].0.images;
    assert Steps(cfg, caps, hosts[n], steps[n].0, steps[n].1, hosts[n + 1]);
    RestartedGet(images, t);
    if Has(hosts[n].threads, t) {
      OkThread(cfg, caps, hosts[n], t);
      GetIn(images, t);
      ThreadSurvives(cfg, Get(hosts[n].threads, t).value, hosts[n].stores[t], Get(images, t).value);
    }
  }

  lemma OkThread(cfg: Config, caps: Caps, h: Host, t: string)
    requires HostOk(cfg, caps, h) && Has(h.threads, t)
    ensures ThreadHosts.Inv(Get(h.threads, t).value)
    ensures t in h.stores && Life(cfg, h.stores[t]) && h.stores[t].mem == Get(h.threads, t).value.journal
  {
    hide ThreadHosts.Inv, Life;
  }

  // ---- there are such runs ------------------------------------------------------------------------------------

  function Appending(events: seq<WireEvent>, ts: int): seq<Op> {
    if events == [] then [] else [BoundaryEvents.Op.Append(events[0], ts)] + Appending(events[1..], ts)
  }

  lemma {:induction false} AppendingAppends(cfg: Config, s: Store, events: seq<WireEvent>, ts: int)
    requires DaemonConfig(cfg) && Life(cfg, s)
    ensures AllDone(cfg, s, Appending(events, ts)).mem == AppendEach(cfg.limits, s.mem, events, ts)
    decreases |events|
  {
    hide Life, DaemonConfig, AppendedTo, Appended;
    if events != [] {
      AppendKeepsLife(cfg, s, events[0], ts);
      LifeIsOpen(cfg, s);
      AppendMem(cfg, s, events[0], ts);
      AppendingAppends(cfg, AppendedTo(cfg, s, events[0], ts), events[1..], ts);
      assert Appending(events, ts)[1..] == Appending(events[1..], ts);
    }
  }

  /** Any store holding `j` can be brought to hold `k`. */
  ghost predicate Reaches(cfg: Config, j: Journal, k: Journal) {
    forall s | Life(cfg, s) && s.mem == j :: ReachesFrom(cfg, s, k)
  }

  ghost predicate ReachesFrom(cfg: Config, s: Store, k: Journal) {
    exists ops :: AllDone(cfg, s, ops).mem == k
  }

  lemma AppendsReaches(cfg: Config, a: Runtime, b: Runtime, ts: int)
    requires DaemonConfig(cfg) && Appends(cfg.limits, a, b, ts)
    ensures Reaches(cfg, a.journal, b.journal)
  {
    hide Life, DaemonConfig, AllDone, AppendEach;
    var events :| AppendEach(cfg.limits, a.journal, events, ts) == b.journal;
    forall s | Life(cfg, s) && s.mem == a.journal
      ensures ReachesFrom(cfg, s, b.journal)
    {
      AppendingAppends(cfg, s, events, ts);
    }
  }

  lemma OneOpReaches(cfg: Config, j: Journal, op: Op, k: Journal)
    requires forall s | Life(cfg, s) && s.mem == j :: BoundaryEvents.Done(cfg, s, op).mem == k
    ensures Reaches(cfg, j, k)
  {
    hide Life, BoundaryEvents.Done;
    forall s | Life(cfg, s) && s.mem == j
      ensures ReachesFrom(cfg, s, k)
    {
      assert [op][1..] == [] && AllDone(cfg, BoundaryEvents.Done(cfg, s, op), []) == BoundaryEvents.Done(cfg, s, op);
      assert AllDone(cfg, s, [op]).mem == k;
    }
  }

  lemma ActedReaches(cfg: Config, rt: Runtime, action: Action, ts: int)
    requires DaemonConfig(cfg)
    ensures Reaches(cfg, rt.journal, Acted(cfg.limits, rt, action, ts).journal)
  {
    hide Life, DaemonConfig, Appends, Compacted, CompactedTo, Acked, Reaches;
    var j := rt.journal;
    match action {
      case Heard(seqNo) =>
        OneOpReaches(cfg, j, BoundaryEvents.Op.Ack(seqNo), Acked(j, seqNo));
      case Trimmed(now) =>
        forall s | Life(cfg, s) && s.mem == j
          ensures BoundaryEvents.Done(cfg, s, BoundaryEvents.Op.Compact(now)).mem == Compacted(cfg.limits, j, now)
        {
          LifeIsOpen(cfg, s);
          CompactedAtRest(cfg, s, now);
        }
        OneOpReaches(cfg, j, BoundaryEvents.Op.Compact(now), Compacted(cfg.limits, j, now));
      case _ =>
        ActedAppends(cfg.limits, rt, action, ts);
        AppendsReaches(cfg, rt, Acted(cfg.limits, rt, action, ts), ts);
    }
  }

  /** The journal a thread's store holds before a step. */
  function JournalSoFar(threads: Threads, t: string): Journal {
    match Get(threads, t) case Some(rt) => rt.journal case None => FRESH
  }

  /** Every thread of `after` can be followed from `threads`. */
  ghost predicate Followable(cfg: Config, threads: Threads, after: Threads) {
    forall t | Has(after, t) :: Reaches(cfg, JournalSoFar(threads, t), Get(after, t).value.journal)
  }

  lemma NothingReaches(cfg: Config, j: Journal)
    ensures Reaches(cfg, j, j)
  {
    hide Life;
    forall s | Life(cfg, s) && s.mem == j
      ensures ReachesFrom(cfg, s, j)
    {
      assert AllDone(cfg, s, []).mem == j;
    }
  }

  lemma PutFollowable(cfg: Config, threads: Threads, t: string, rt: Runtime)
    requires Reaches(cfg, JournalSoFar(threads, t), rt.journal)
    ensures Followable(cfg, threads, Put(threads, t, rt))
  {
    hide Reaches;
    forall x | Has(Put(threads, t, rt), x)
      ensures Reaches(cfg, JournalSoFar(threads, x), Get(Put(threads, t, rt), x).value.journal)
    {
      GetPut(threads, t, rt, x);
      NothingReaches(cfg, JournalSoFar(threads, x));
    }
  }

  lemma SameFollowable(cfg: Config, threads: Threads)
    ensures Followable(cfg, threads, threads)
  {
    hide Reaches;
    forall x | Has(threads, x) ensures Reaches(cfg, JournalSoFar(threads, x), Get(threads, x).value.journal) {
      NothingReaches(cfg, JournalSoFar(threads, x));
    }
  }

  lemma OpenedFollowable(cfg: Config, caps: Caps, threads: Threads, step: Step, ts: int)
    requires DaemonConfig(cfg) && step.Open?
    ensures Followable(cfg, threads, Opened(cfg.limits, caps, threads, step, ts))
  {
    hide Reaches, DaemonConfig, Started, Put, Appends, Followable, LiveSessions;
    var rt := match Get(threads, step.thread) case Some(r) => r case None => NewRuntime(FRESH);
    NothingReaches(cfg, rt.journal);
    PutFollowable(cfg, threads, step.thread, rt);
    StartedAppends(cfg.limits, rt, step.start, step.rest, ts);
    var r := Started(cfg.limits, rt, step.start, step.rest, ts);
    AppendsReaches(cfg, rt, r, ts);
    PutFollowable(cfg, threads, step.thread, r.(recipe := r.driver.Some? || rt.recipe));
  }

  lemma SendFollowable(cfg: Config, caps: Caps, threads: Threads, step: Step, ts: int)
    requires DaemonConfig(cfg) && step.Send?
    ensures Followable(cfg, threads, SendTo(cfg.limits, caps, threads, step, ts).0)
  {
    hide Reaches, DaemonConfig, Started, Sent, Put, Appends, Followable, LiveSessions, TurnsInFlight;
    var l := cfg.limits;
    SameFollowable(cfg, threads);
    if Has(threads, step.thread) {
      var rt := Get(threads, step.thread).value;
      if rt.driver.Some? {
        SentAppends(l, rt, step.uuid, step.rest, ts);
        AppendsReaches(cfg, rt, Sent(l, rt, step.uuid, step.rest, ts), ts);
        PutFollowable(cfg, threads, step.thread, Sent(l, rt, step.uuid, step.rest, ts));
      } else {
        var r := Started(l, rt, step.start, step.rest, ts);
        StartedAppends(l, rt, step.start, step.rest, ts);
        AppendsReaches(cfg, rt, r, ts);
        PutFollowable(cfg, threads, step.thread, r);
        if r.driver.Some? {
          SentAppends(l, r, step.uuid, step.rest, ts);
          Appends2(l, rt, r, Sent(l, r, step.uuid, step.rest, ts), ts);
          AppendsReaches(cfg, rt, Sent(l, r, step.uuid, step.rest, ts), ts);
          PutFollowable(cfg, threads, step.thread, Sent(l, r, step.uuid, step.rest, ts));
        }
      }
    }
  }

  lemma NextFollowable(cfg: Config, caps: Caps, threads: Threads, step: Step, ts: int)
    requires DaemonConfig(cfg) && !step.Restart?
    ensures Followable(cfg, threads, Next(cfg.limits, caps, threads, step, ts))
  {
    hide Reaches, DaemonConfig, Opened, SendTo, Acted, Put, Followable;
    match step {
      case Open(_, _, _) => OpenedFollowable(cfg, caps, threads, step, ts);
      case Send(_, _, _, _) => SendFollowable(cfg, caps, threads, step, ts);
      case Act(t, action) =>
        SameFollowable(cfg, threads);
        if Has(threads, t) {
          ActedReaches(cfg, Get(threads, t).value, action, ts);
          PutFollowable(cfg, threads, t, Acted(cfg.limits, Get(threads, t).value, action, ts));
        }
    }
  }

  ghost predicate Followed(cfg: Config, stores: map<string, Store>, t: string, j: Journal) {
    exists s :: StoreFollows(cfg, stores, t, s, j)
  }

  lemma StoreCanFollow(cfg: Config, caps: Caps, h: Host, t: string, j: Journal)
    requires DaemonConfig(cfg) && HostOk(cfg, caps, h) && Reaches(cfg, JournalSoFar(h.threads, t), j)
    ensures Followed(cfg, h.stores, t, j)
  {
    hide Life, HostInv, AllDone, Recovered;
    var s: Store;
    if t in h.stores {
      s := h.stores[t];
    } else {
      OpensFresh(cfg);
      RecoveredLives(cfg, EMPTY_DISK, "e1");
      s := Recovered(cfg, EMPTY_DISK, "e1");
    }
    assert StoreSoFar(cfg, h.stores, t, s);
    assert ReachesFrom(cfg, s, j);
    var ops :| AllDone(cfg, s, ops).mem == j;
    assert Carried(cfg, s, AllDone(cfg, s, ops));
    assert StoreFollows(cfg, h.stores, t, AllDone(cfg, s, ops), j);
  }

  ghost function Follower(cfg: Config, stores: map<string, Store>, t: string, j: Journal): (s: Store)
    requires Followed(cfg, stores, t, j)
    ensures StoreFollows(cfg, stores, t, s, j)
  {
    var s :| StoreFollows(cfg, stores, t, s, j);
    s
  }

  function Names<V>(m: Pairs<string, V>): set<string> {
    if m == [] then {} else {m[0].0} + Names(m[1..])
  }

  lemma {:induction false} NamesAreKeys<V>(m: Pairs<string, V>, t: string)
    ensures t in Names(m) <==> Has(m, t)
  {
    if m != [] {
      NamesAreKeys(m[1..], t);
    }
  }

  /** Whatever the host does next, its disks can follow. */
  lemma DisksFollow(cfg: Config, caps: Caps, h: Host, step: Step, ts: int) returns (after: Host)
    requires DaemonConfig(cfg) && HostOk(cfg, caps, h) && Enabled(h.threads, step) && !step.Restart?
    ensures Steps(cfg, caps, h, step, ts, after)
  {
    hide DaemonConfig, HostOk, Enabled, Next, Reaches, StoreFollows, Followed, Get;
    var threads := Next(cfg.limits, caps, h.threads, step, ts);
    NextFollowable(cfg, caps, h.threads, step, ts);
    forall t ensures t in Names(threads) <==> Has(threads, t) {
      NamesAreKeys(threads, t);
    }
    forall t | t in Names(threads) ensures Followed(cfg, h.stores, t, Get(threads, t).value.journal) {
      StoreCanFollow(cfg, caps, h, t, Get(threads, t).value.journal);
    }
    after := Host(threads, map t | t in Names(threads) :: Follower(cfg, h.stores, t, Get(threads, t).value.journal));
  }

  /** The image of each thread when the process is killed between two writes. */
  ghost function Killed(cfg: Config, h: Host, threads: Threads, epoch: string): Pairs<string, Image>
    requires forall pair | pair in threads :: pair.0 in h.stores && Has(h.threads, pair.0)
    decreases |threads|
  {
    if threads == [] then []
    else
      var t := threads[0].0;
      assert threads[0] in threads && forall pair | pair in threads[1..] :: pair in threads;
      assert threads[0].0 in h.stores && Has(h.threads, threads[0].0);
      [(t, Image(cfg, h.stores[t].disk, epoch, "", 0, 0, Get(h.threads, t).value.recipe))]
      + Killed(cfg, h, threads[1..], epoch)
  }

  lemma {:induction false} KilledGet(cfg: Config, h: Host, threads: Threads, epoch: string, t: string)
    requires forall pair | pair in threads :: pair.0 in h.stores && Has(h.threads, pair.0)
    ensures Has(Killed(cfg, h, threads, epoch), t) <==> Has(threads, t)
    ensures Has(threads, t) ==>
      && t in h.stores && Has(h.threads, t)
      && Get(Killed(cfg, h, threads, epoch), t)
         == Some(Image(cfg, h.stores[t].disk, epoch, "", 0, 0, Get(h.threads, t).value.recipe))
    decreases |threads|
  {
    if threads != [] {
      assert threads[0] in threads && forall pair | pair in threads[1..] :: pair in threads;
      KilledGet(cfg, h, threads[1..], epoch, t);
      assert Killed(cfg, h, threads, epoch)[1..] == Killed(cfg, h, threads[1..], epoch);
    }
  }

  lemma {:induction false} InHas<V>(m: Pairs<string, V>, t: string, v: V)
    requires (t, v) in m
    ensures Has(m, t)
  {
    if m[0].0 != t {
      InHas(m[1..], t, v);
    }
  }

  ghost predicate NewEpoch(h: Host, epoch: string) {
    forall t | t in h.stores :: !KnowsEpoch(h.stores[t].disk.idx, epoch)
  }

  /** A process can be started on whatever a crash left. */
  lemma RestartCanFollow(cfg: Config, caps: Caps, h: Host, images: Pairs<string, Image>, ts: int) returns (after: Host)
    requires AllLeftBehind(cfg, h, images) && Enabled(h.threads, Restart(images))
    ensures Steps(cfg, caps, h, Restart(images), ts, after)
  {
    hide AllLeftBehind, Enabled, Reborn, Get, Restarted;
    var threads := Restarted(images);
    forall t
      ensures t in Names(threads) <==> Has(threads, t)
      ensures t in Names(threads) <==> Has(images, t)
    {
      NamesAreKeys(threads, t);
      RestartedGet(images, t);
    }
    after := Host(threads, map t | t in Names(threads) :: Reborn(Get(images, t).value));
  }

  /** And a crash can come at any moment: the process killed between two writes, a new one under a fresh epoch. */
  lemma CrashCanHappen(cfg: Config, caps: Caps, h: Host, epoch: string, ts: int)
    returns (images: Pairs<string, Image>, after: Host)
    requires DaemonConfig(cfg) && HostOk(cfg, caps, h) && NewEpoch(h, epoch)
    ensures Steps(cfg, caps, h, Restart(images), ts, after)
  {
    hide DaemonConfig, HostInv, Life, Get, Steps, AllLeftBehind, Readable, NewEpoch, LeftBehind, Killed;
    forall pair | pair in h.threads ensures pair.0 in h.stores && Has(h.threads, pair.0) {
      InHas(h.threads, pair.0, pair.1);
    }
    images := Killed(cfg, h, h.threads, epoch);
    KilledLeftBehind(cfg, h, epoch);
    ConfigValid(cfg);
    KilledReadable(cfg, h, h.threads, epoch);
    after := RestartCanFollow(cfg, caps, h, images, ts);
  }

  lemma KilledLeftBehind(cfg: Config, h: Host, epoch: string)
    requires forall pair | pair in h.threads :: pair.0 in h.stores && Has(h.threads, pair.0)
    ensures AllLeftBehind(cfg, h, Killed(cfg, h, h.threads, epoch))
  {
    hide Get, Killed, LeftBehind;
    var images := Killed(cfg, h, h.threads, epoch);
    forall t
      ensures Has(images, t) <==> Has(h.threads, t)
      ensures Has(images, t) && t in h.stores ==>
        LeftBehind(cfg, Get(h.threads, t).value, h.stores[t], Get(images, t).value)
    {
      KilledGet(cfg, h, h.threads, epoch, t);
      if Has(images, t) {
        KilledImage(cfg, Get(h.threads, t).value, h.stores[t], epoch);
      }
    }
  }

  lemma KilledImage(cfg: Config, rt: Runtime, s: Store, epoch: string)
    ensures LeftBehind(cfg, rt, s, Image(cfg, s.disk, epoch, "", 0, 0, rt.recipe))
  {
    NothingTorn(cfg, s);
  }

  lemma ConfigValid(cfg: Config)
    requires DaemonConfig(cfg)
    ensures cfg.codec.Valid()
  {
  }

  lemma NothingTorn(cfg: Config, s: Store)
    ensures D.Torn(cfg, s, 0) == s.disk
  {
    assert s.disk.log + [] == s.disk.log;
  }

  lemma {:induction false} KilledReadable(cfg: Config, h: Host, threads: Threads, epoch: string)
    requires cfg.codec.Valid() && NewEpoch(h, epoch)
    requires forall pair | pair in threads :: pair.0 in h.stores && Has(h.threads, pair.0)
    ensures forall pair | pair in Killed(cfg, h, threads, epoch) :: Readable(pair.1)
    decreases |threads|
  {
    if threads != [] {
      assert threads[0] in threads && forall pair | pair in threads[1..] :: pair in threads;
      KilledReadable(cfg, h, threads[1..], epoch);
    }
  }
}
