/**
 * No channel starves (`nextFrame`, daemon/connection.ts:715-735): with no control reply waiting, a channel with
 * anything queued is served within `2n - 1` calls for `n` channels, however much arrives on the others meanwhile.
 */
module Fairness {
  import opened Common
  import opened OrderedMap
  import opened Connections

  type Arrivals = Pairs<Channel, seq<QueueItem>>

  /** Live events that arrived on the channels since the last frame. */
  function Grown(subs: Pairs<Channel, Sub>, more: Arrivals): Pairs<Channel, Sub> {
    if subs == [] then [] else
      var (ch, s) := subs[0];
      var items := if Has(more, ch) then Get(more, ch).value else [];
      [(ch, s.(queue := s.queue + items))] + Grown(subs[1..], more)
  }

  /** The channel each call served, with arrivals before every call. */
  function Rounds(subs: Pairs<Channel, Sub>, rounds: seq<Arrivals>): (served: seq<Option<Channel>>)
    ensures |served| == |rounds|
    decreases |rounds|
  {
    if rounds == [] then [] else
      var grown := Grown(subs, rounds[0]);
      match Served(grown)
      case None => [None] + Rounds(grown, rounds[1..])
      case Some((ch, _, after)) => [Some(ch)] + Rounds(after, rounds[1..])
  }

  function Position(subs: Pairs<Channel, Sub>, ch: Channel): (p: nat)
    requires Has(subs, ch)
    ensures p < |subs| && subs[p].0 == ch && Get(subs, ch) == Some(subs[p].1)
  {
    if subs[0].0 == ch then 0 else 1 + Position(subs[1..], ch)
  }

  function Resyncs(subs: Pairs<Channel, Sub>): (n: nat)
    ensures n <= |subs|
  {
    if subs == [] then 0 else (if subs[0].1.resync.Some? then 1 else 0) + Resyncs(subs[1..])
  }

  /** How many frames other channels may send first: one for each channel ahead, and one more for its resync. */
  function Ahead(subs: Pairs<Channel, Sub>, ch: Channel): nat
    requires Has(subs, ch)
  {
    var p := Position(subs, ch);
    p + Resyncs(subs[..p])
  }

  lemma {:induction false} ResyncsAppend(a: Pairs<Channel, Sub>, b: Pairs<Channel, Sub>)
    ensures Resyncs(a + b) == Resyncs(a) + Resyncs(b)
  {
    if a == [] {
      assert a + b == b;
    } else {
      assert (a + b)[1..] == a[1..] + b;
      ResyncsAppend(a[1..], b);
    }
  }

  lemma {:induction false} PositionIs(subs: Pairs<Channel, Sub>, p: nat)
    requires Unique(subs) && p < |subs|
    ensures Has(subs, subs[p].0) && Position(subs, subs[p].0) == p
  {
    if p > 0 {
      GetAt(subs[1..], p - 1);
      PositionIs(subs[1..], p - 1);
    }
  }

  lemma {:induction false} GrownKeeps(subs: Pairs<Channel, Sub>, more: Arrivals, ch: Channel)
    requires Unique(subs)
    ensures Unique(Grown(subs, more)) && Has(Grown(subs, more), ch) == Has(subs, ch)
    ensures Has(subs, ch) ==>
      && Ahead(Grown(subs, more), ch) == Ahead(subs, ch)
      && (Ready(Get(subs, ch).value) ==> Ready(Get(Grown(subs, more), ch).value))
  {
    if subs != [] {
      var grown := Grown(subs, more);
      var rest := Grown(subs[1..], more);
      assert grown[1..] == rest;
      GrownKeeps(subs[1..], more, ch);
      GrownKeeps(subs[1..], more, subs[0].0);
      if Has(subs, ch) && subs[0].0 != ch {
        var p := Position(subs[1..], ch);
        var q := Position(rest, ch);
        assert subs[..p + 1][1..] == subs[1..][..p];
        assert grown[..q + 1][1..] == rest[..q];
      }
    }
  }

  lemma {:induction false} FirstReadyIsFirst(subs: Pairs<Channel, Sub>, p: nat)
    requires p < |subs| && Ready(subs[p].1)
    ensures FirstReady(subs) <= p
  {
    if p > 0 && !Ready(subs[0].1) {
      FirstReadyIsFirst(subs[1..], p - 1);
    }
  }

  lemma ReplaceOne<T>(a: seq<T>, i: nat, p: nat, t: T)
    requires i < p < |a|
    ensures
      var b := a[..i] + [t] + a[i + 1..];
      |b| == |a| && b[p] == a[p] && b[..p] == a[..i] + [t] + a[i + 1..p] && a[..p] == a[..i] + [a[i]] + a[i + 1..p]
  {
  }

  lemma RotateOne<T>(a: seq<T>, i: nat, p: nat, t: T)
    requires i < p < |a|
    ensures
      var b := a[..i] + a[i + 1..] + [t];
      |b| == |a| && b[p - 1] == a[p] && b[..p - 1] == a[..i] + a[i + 1..p]
  {
  }

  lemma ResyncsAround(a: Pairs<Channel, Sub>, x: (Channel, Sub), b: Pairs<Channel, Sub>)
    ensures Resyncs(a + [x] + b) == Resyncs(a) + (if x.1.resync.Some? then 1 else 0) + Resyncs(b)
    ensures Resyncs(a + b) == Resyncs(a) + Resyncs(b)
  {
    ResyncsAppend(a + [x], b);
    ResyncsAppend(a, [x]);
    ResyncsAppend(a, b);
    assert [x][1..] == [];
  }

  /** A resync frame leaves the order alone and clears one resync ahead. */
  lemma Struck(subs: Pairs<Channel, Sub>, i: nat, p: nat)
    requires Unique(subs) && i < p < |subs| && subs[i].1.resync.Some?
    ensures
      var after := Put(subs, subs[i].0, subs[i].1.(resync := None));
      && Unique(after) && Has(after, subs[p].0) && Position(after, subs[p].0) == p
      && Resyncs(after[..p]) < Resyncs(subs[..p])
  {
    var t := (subs[i].0, subs[i].1.(resync := None));
    PutAt(subs, i, t.1);
    PutUnique(subs, t.0, t.1);
    ReplaceOne(subs, i, p, t);
    PositionIs(Put(subs, t.0, t.1), p);
    ResyncsAround(subs[..i], t, subs[i + 1..p]);
    ResyncsAround(subs[..i], subs[i], subs[i + 1..p]);
  }

  /** Serving an item moves its channel behind everyone. */
  lemma Rotated(subs: Pairs<Channel, Sub>, i: nat, p: nat, t: Sub)
    requires Unique(subs) && i < p < |subs|
    ensures
      var after := Put(Delete(subs, subs[i].0), subs[i].0, t);
      && Unique(after) && Has(after, subs[p].0) && Position(after, subs[p].0) == p - 1
      && Resyncs(after[..p - 1]) <= Resyncs(subs[..p])
  {
    var ch := subs[i].0;
    DeleteAt(subs, i);
    DeleteUnique(subs, ch);
    GetDelete(subs, ch, ch);
    PutNew(Delete(subs, ch), ch, t);
    PutUnique(Delete(subs, ch), ch, t);
    RotateOne(subs, i, p, (ch, t));
    ReplaceOne(subs, i, p, (ch, t));
    PositionIs(Put(Delete(subs, ch), ch, t), p - 1);
    ResyncsAround(subs[..i], subs[i], subs[i + 1..p]);
  }

  /** Every frame another channel sends brings a waiting channel closer. */
  lemma ServedBringsCloser(subs: Pairs<Channel, Sub>, ch: Channel)
    requires Unique(subs) && Has(subs, ch) && Ready(Get(subs, ch).value)
    ensures Served(subs).Some?
    ensures
      var (x, _, after) := Served(subs).value;
      x != ch ==> Unique(after) && Has(after, ch) && Ready(Get(after, ch).value) && Ahead(after, ch) < Ahead(subs, ch)
  {
    hide Position, Resyncs, Unique;
    var p := Position(subs, ch);
    FirstReadyIsFirst(subs, p);
    var i := FirstReady(subs);
    var (x, f, after) := Served(subs).value;
    ServedGet(subs, ch);
    if x != ch {
      if subs[i].1.resync.Some? {
        Struck(subs, i, p);
      } else {
        Rotated(subs, i, p, subs[i].1.(queue := subs[i].1.queue[1..]));
      }
    }
  }

  lemma {:induction false} ServedSoon(subs: Pairs<Channel, Sub>, rounds: seq<Arrivals>, ch: Channel) returns (k: nat)
    requires Unique(subs) && Has(subs, ch) && Ready(Get(subs, ch).value) && |rounds| > Ahead(subs, ch)
    ensures k <= Ahead(subs, ch) && Rounds(subs, rounds)[k] == Some(ch)
    decreases |rounds|
  {
    var grown := Grown(subs, rounds[0]);
    GrownKeeps(subs, rounds[0], ch);
    ServedBringsCloser(grown, ch);
    var (x, _, after) := Served(grown).value;
    if x == ch {
      k := 0;
    } else {
      k := ServedSoon(after, rounds[1..], ch);
      k := k + 1;
    }
  }

  /** Round-robin: a waiting channel among `n` is served within `2n - 1` calls, whatever arrives in between. */
  lemma NoChannelStarves(subs: Pairs<Channel, Sub>, rounds: seq<Arrivals>, ch: Channel)
    requires Unique(subs) && Has(subs, ch) && Ready(Get(subs, ch).value) && |rounds| >= 2 * |subs| - 1
    ensures exists k :: 0 <= k < 2 * |subs| - 1 && Rounds(subs, rounds)[k] == Some(ch)
  {
    var k := ServedSoon(subs, rounds, ch);
  }
}
