/**
 * Who holds the read-write seat on each thread (`daemon/controlRegistry.ts`), wired to the host-tool broker as the
 * server wires it (daemon/server.ts:201): every change of owner is told to the broker.
 *
 * `Daemon` is the registry and the broker together as a value; class `ControlRegistry` is the object.
 */
module ControlRegistries {
  import opened Common
  import opened OrderedMap
  import opened HostTools

  datatype Controller = Controller(id: nat, tokenId: string, instanceId: Option<string>)

  /** A missing instance id on either side falls back to the token alone. */
  predicate SameClient(a: Controller, b: Controller) {
    a.tokenId == b.tokenId && (a.instanceId.None? || b.instanceId.None? || a.instanceId == b.instanceId)
  }

  datatype Daemon = Daemon(seats: Pairs<string, Controller>, broker: Broker)

  // ---- the operations as functions ----------------------------------------------------------------------------

  predicate MayClaim(d: Daemon, thread: string, who: Controller) {
    var cur := Get(d.seats, thread);
    cur.None? || cur.value.id == who.id || SameClient(cur.value, who)
  }

  function Claimed(t: Timing, d: Daemon, thread: string, who: Controller): Daemon {
    if !MayClaim(d, thread, who) then d else
      var cur := Get(d.seats, thread);
      Daemon(Put(d.seats, thread, who),
             if cur.None? || cur.value.id != who.id then Seated(t, d.broker, thread, Some(who.id)) else d.broker)
  }

  function Released(t: Timing, d: Daemon, thread: string, conn: nat): Daemon {
    var cur := Get(d.seats, thread);
    if cur.None? || cur.value.id != conn then d
    else Daemon(Delete(d.seats, thread), Seated(t, d.broker, thread, None))
  }

  /** Release, in order, the seats among `m` that the connection holds. */
  function ReleasedEach(t: Timing, d: Daemon, m: Pairs<string, Controller>, conn: nat): Daemon
    decreases |m|
  {
    if m == [] then d
    else if m[0].1.id != conn then ReleasedEach(t, d, m[1..], conn)
    else ReleasedEach(t, Daemon(Delete(d.seats, m[0].0), Seated(t, d.broker, m[0].0, None)), m[1..], conn)
  }

  function ReleasedAll(t: Timing, d: Daemon, conn: nat): Daemon {
    ReleasedEach(t, d, d.seats, conn)
  }

  // ---- the composite invariant --------------------------------------------------------------------------------

  /** The broker's idea of who holds a thread's seat is the registry's. */
  ghost predicate SeatsAgree(d: Daemon, thread: string) {
    match Get(d.seats, thread)
    case None => thread !in d.broker.seats
    case Some(c) => thread in d.broker.seats && d.broker.seats[thread] == c.id
  }

  ghost predicate DaemonInv(t: Timing, d: Daemon) {
    Unique(d.seats) && Inv(t, d.broker) && forall thread :: SeatsAgree(d, thread)
  }

  lemma SeatedSeats(t: Timing, b: Broker, thread: string, holder: Option<nat>)
    ensures Seated(t, b, thread, holder).seats
         == if holder.Some? then b.seats[thread := holder.value] else b.seats - {thread}
    ensures Seated(t, b, thread, holder).owners == b.owners
  {
  }

  lemma ClaimKeepsInv(t: Timing, d: Daemon, thread: string, who: Controller)
    requires DaemonInv(t, d)
    ensures DaemonInv(t, Claimed(t, d, thread, who))
  {
    hide Inv, Seated;
    if MayClaim(d, thread, who) {
      PutUnique(d.seats, thread, who);
      SeatKeepsInv(t, d.broker, thread, Some(who.id));
      SeatedSeats(t, d.broker, thread, Some(who.id));
      forall x
        ensures SeatsAgree(Claimed(t, d, thread, who), x)
      {
        GetPut(d.seats, thread, who, x);
        assert SeatsAgree(d, x);
      }
    }
  }

  lemma UnseatKeepsInv(t: Timing, d: Daemon, thread: string)
    requires DaemonInv(t, d)
    ensures DaemonInv(t, Daemon(Delete(d.seats, thread), Seated(t, d.broker, thread, None)))
  {
    hide Inv, Seated;
    var d' := Daemon(Delete(d.seats, thread), Seated(t, d.broker, thread, None));
    DeleteUnique(d.seats, thread);
    SeatKeepsInv(t, d.broker, thread, None);
    SeatedSeats(t, d.broker, thread, None);
    forall x
      ensures SeatsAgree(d', x)
    {
      GetDelete(d.seats, thread, x);
      assert SeatsAgree(d, x);
    }
  }

  lemma {:induction false} ReleaseEachKeepsInv(t: Timing, d: Daemon, m: Pairs<string, Controller>, conn: nat)
    requires DaemonInv(t, d)
    ensures DaemonInv(t, ReleasedEach(t, d, m, conn))
    decreases |m|
  {
    hide DaemonInv;
    if m != [] {
      if m[0].1.id == conn {
        UnseatKeepsInv(t, d, m[0].0);
        ReleaseEachKeepsInv(t, Daemon(Delete(d.seats, m[0].0), Seated(t, d.broker, m[0].0, None)), m[1..], conn);
      } else {
        ReleaseEachKeepsInv(t, d, m[1..], conn);
      }
    }
  }

  // ---- runs of the whole --------------------------------------------------------------------------------------

  /** Seats change through the registry only; every other broker step happens on its own. */
  datatype DaemonStep =
    | Claim(thread: string, who: Controller)
    | Release(thread: string, conn: nat)
    | Disconnect(conn: nat)
    | BrokerStep(step: Step)

  ghost predicate DaemonAllowed(d: Daemon, s: DaemonStep) {
    s.BrokerStep? ==> !s.step.SetSeat? && Allowed(d.broker, s.step)
  }

  function DaemonNext(t: Timing, d: Daemon, s: DaemonStep): Daemon {
    match s
    case Claim(thread, who) => Claimed(t, d, thread, who)
    case Release(thread, conn) => Released(t, d, thread, conn)
    case Disconnect(conn) => ReleasedAll(t, d, conn)
    case BrokerStep(step) => d.(broker := Next(t, d.broker, step))
  }

  ghost predicate IsDaemonRun(t: Timing, d: Daemon, steps: seq<DaemonStep>, end: Daemon)
    decreases |steps|
  {
    if steps == [] then d == end
    else DaemonAllowed(d, steps[0]) && IsDaemonRun(t, DaemonNext(t, d, steps[0]), steps[1..], end)
  }

  lemma BrokerStepSeats(t: Timing, b: Broker, step: Step)
    requires Inv(t, b) && Allowed(b, step) && !step.SetSeat?
    ensures Next(t, b, step).seats == b.seats
  {
    if !step.SetManifest? {
      CallStepFrame(t, b, step);
    }
  }

  lemma DaemonStepKeepsInv(t: Timing, d: Daemon, s: DaemonStep)
    requires DaemonInv(t, d) && DaemonAllowed(d, s)
    ensures DaemonInv(t, DaemonNext(t, d, s))
  {
    match s
    case Claim(thread, who) => ClaimKeepsInv(t, d, thread, who);
    case Release(thread, conn) => UnseatKeepsInv(t, d, thread);
    case Disconnect(conn) => ReleaseEachKeepsInv(t, d, d.seats, conn);
    case BrokerStep(step) => InnerStepKeepsInv(t, d, step);
  }

  lemma InnerStepKeepsInv(t: Timing, d: Daemon, step: Step)
    requires DaemonInv(t, d) && Allowed(d.broker, step) && !step.SetSeat?
    ensures DaemonInv(t, d.(broker := Next(t, d.broker, step)))
  {
    hide Inv, Next;
    StepKeepsInv(t, d.broker, step);
    BrokerStepSeats(t, d.broker, step);
    forall x
      ensures SeatsAgree(d.(broker := Next(t, d.broker, step)), x)
    {
      assert SeatsAgree(d, x);
    }
  }

  lemma {:induction false} DaemonRunKeepsInv(t: Timing, d: Daemon, steps: seq<DaemonStep>, end: Daemon)
    requires DaemonInv(t, d) && IsDaemonRun(t, d, steps, end)
    ensures DaemonInv(t, end)
    decreases |steps|
  {
    hide DaemonInv, DaemonNext;
    if steps != [] {
      DaemonStepKeepsInv(t, d, steps[0]);
      DaemonRunKeepsInv(t, DaemonNext(t, d, steps[0]), steps[1..], end);
    }
  }

  /**
   * In every run of claims, releases, disconnects, manifests and calls: the broker has a client for a thread's tools
   * exactly while the connection the registry seats on it is the last one that supplied its manifest.
   */
  lemma AttachedIffSeatSuppliedManifest(t: Timing, steps: seq<DaemonStep>, d: Daemon, thread: string)
    requires IsDaemonRun(t, Daemon([], START), steps, d)
    ensures thread in d.broker.attached <==>
      Has(d.seats, thread) && thread in d.broker.owners && d.broker.owners[thread] == Get(d.seats, thread).value.id
  {
    hide IdOk, IsDaemonRun;
    StartInv(t);
    DaemonRunKeepsInv(t, Daemon([], START), steps, d);
    assert SeatsAgree(d, thread);
  }

  /**
   * Who sits where after each step, for every thread: a claim takes its seat when it is free, held by the same
   * connection, or by the same token from the same install (or from one that gave no install); a release or a disconnect
   * frees exactly what that connection holds; nothing else moves anyone.
   */
  lemma SeatChanges(t: Timing, d: Daemon, s: DaemonStep, thread: string)
    requires DaemonInv(t, d) && DaemonAllowed(d, s)
    ensures
      var before, after := Get(d.seats, thread), Get(DaemonNext(t, d, s).seats, thread);
      match s
      case Claim(x, who) =>
        var gives := before.None? || before.value.id == who.id
                      || (before.value.tokenId == who.tokenId
                          && (before.value.instanceId.None? || who.instanceId.None?
                              || before.value.instanceId.value == who.instanceId.value));
        after == if x == thread && gives then Some(who) else before
      case Release(x, conn) =>
        after == if x == thread && before.Some? && before.value.id == conn then None else before
      case Disconnect(conn) => after == if before.Some? && before.value.id == conn then None else before
      case BrokerStep(_) => after == before
  {
    hide Inv, Seated, Next, Allowed, ReleasedEach;
    match s {
      case Claim(x, who) => ClaimTakesSeat(t, d, x, who, thread);
      case Release(x, conn) => GetDelete(d.seats, x, thread);
      case Disconnect(conn) =>
        DisconnectFreesSeats(t, d, d.seats, conn, thread);
        HeldAt(d.seats, thread, conn);
      case BrokerStep(_) =>
    }
  }

  lemma {:induction false} HeldAt(m: Pairs<string, Controller>, thread: string, conn: nat)
    requires Unique(m)
    ensures (exists i :: 0 <= i < |m| && m[i].0 == thread && m[i].1.id == conn)
            <==> Has(m, thread) && Get(m, thread).value.id == conn
  {
    if m != [] {
      var rest := m[1..];
      HeldAt(rest, thread, conn);
      assert forall i | 0 <= i < |rest| :: rest[i] == m[i + 1];
      if i :| 0 <= i < |m| && m[i].0 == thread && m[i].1.id == conn {
        if i > 0 {
          AtHas(rest, i - 1);
        }
      }
      if j :| 0 <= j < |rest| && rest[j].0 == thread && rest[j].1.id == conn {
        assert m[j + 1].0 == thread;
        AtHas(rest, j);
      }
    }
  }

  lemma {:induction false} AtHas(m: Pairs<string, Controller>, i: nat)
    requires i < |m|
    ensures Has(m, m[i].0)
  {
    if m[0].0 != m[i].0 {
      AtHas(m[1..], i - 1);
    }
  }

  // ---- what a seat means --------------------------------------------------------------------------------------

  /** A claim succeeds exactly for a free seat or the same client, and then the seat is the claimer's. */
  lemma ClaimTakesSeat(t: Timing, d: Daemon, thread: string, who: Controller, other: string)
    ensures
      var d' := Claimed(t, d, thread, who);
      if MayClaim(d, thread, who)
      then Get(d'.seats, other) == if other == thread then Some(who) else Get(d.seats, other)
      else d' == d
  {
    GetPut(d.seats, thread, who, other);
  }

  /** After a disconnect the connection holds no seat, and nobody else's seat moved. */
  lemma {:induction false} DisconnectFreesSeats(t: Timing, d: Daemon, m: Pairs<string, Controller>, conn: nat, thread: string)
    requires Unique(d.seats)
    ensures Get(ReleasedEach(t, d, m, conn).seats, thread)
         == if exists i :: 0 <= i < |m| && m[i].0 == thread && m[i].1.id == conn then None else Get(d.seats, thread)
    decreases |m|
  {
    if m != [] {
      var rest := m[1..];
      assert forall i | 0 <= i < |rest| :: rest[i] == m[i + 1];
      if m[0].1.id == conn {
        DeleteUnique(d.seats, m[0].0);
        GetDelete(d.seats, m[0].0, thread);
        DisconnectFreesSeats(t, Daemon(Delete(d.seats, m[0].0), Seated(t, d.broker, m[0].0, None)), rest, conn, thread);
      } else {
        DisconnectFreesSeats(t, d, rest, conn, thread);
      }
      if exists i :: 0 <= i < |m| && m[i].0 == thread && m[i].1.id == conn {
        var i :| 0 <= i < |m| && m[i].0 == thread && m[i].1.id == conn;
        assert i > 0 ==> rest[i - 1] == m[i];
      }
    }
  }

  // ---- the object ---------------------------------------------------------------------------------------------

  class ControlRegistry {
    const broker: HostToolBroker
    var owners: Pairs<string, Controller>

    ghost function Value(): Daemon
      reads this, broker
    {
      Daemon(owners, broker.Value())
    }

    constructor (broker: HostToolBroker)
      ensures this.broker == broker && owners == []
    {
      this.broker := broker;
      owners := [];
    }

    method ClaimSeat(thread: string, who: Controller) returns (held: bool)
      modifies this, broker
      ensures held == MayClaim(old(Value()), thread, who)
      ensures Value() == Claimed(broker.timing, old(Value()), thread, who)
    {
      var cur := Get(owners, thread);
      if cur.Some? && cur.value.id != who.id && !SameClient(cur.value, who) {
        return false;
      }
      owners := Put(owners, thread, who);
      if cur.None? || cur.value.id != who.id {
        broker.SetSeatHolder(thread, Some(who.id));
      }
      held := true;
    }

    method ReleaseSeat(thread: string, conn: nat)
      modifies this, broker
      ensures Value() == Released(broker.timing, old(Value()), thread, conn)
    {
      var cur := Get(owners, thread);
      if cur.Some? && cur.value.id == conn {
        owners := Delete(owners, thread);
        broker.SetSeatHolder(thread, None);
      }
    }

    method ReleaseAll(conn: nat)
      modifies this, broker
      ensures Value() == ReleasedAll(broker.timing, old(Value()), conn)
    {
      var snapshot := owners;
      var i := 0;
      while i < |snapshot|
        invariant 0 <= i <= |snapshot|
        invariant ReleasedEach(broker.timing, old(Value()), snapshot, conn)
               == ReleasedEach(broker.timing, Value(), snapshot[i..], conn)
      {
        assert snapshot[i..][1..] == snapshot[i + 1..];
        if snapshot[i].1.id == conn {
          owners := Delete(owners, snapshot[i].0);
          broker.SetSeatHolder(snapshot[i].0, None);
        }
        i := i + 1;
      }
      assert snapshot[i..] == [];
    }
  }
}
