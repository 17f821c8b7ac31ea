/**
 * Command idempotency (`daemon/cmdCache.ts`, and its use in `onCommand`, daemon/connection.ts:386-435): the reply to
 * each command id is remembered for a while after it was given, and a retry of a running command joins it.
 *
 * `Cache` is the state as a value, class `CommandCache` the object; `Dispatcher` is the cache with the commands that
 * actually ran, over a clock that does not go back.
 */
module CmdCache {
  import opened Common

  datatype Cached<R> = Cached(at: int, reply: R)

  datatype Cache<R> = Cache(entries: map<string, Cached<R>>, inflight: set<string>)

  // ---- keys ---------------------------------------------------------------------------------------------------

  const NUL: char := '\0'

  function Key(scope: string, cmdId: string): string {
    scope + [NUL] + cmdId
  }

  /** Within one scope, different command ids never share a key. */
  lemma KeyInScope(scope: string, x: string, y: string)
    requires Key(scope, x) == Key(scope, y)
    ensures x == y
  {
    assert Key(scope, x)[|scope| + 1..] == x;
    assert Key(scope, y)[|scope| + 1..] == y;
  }

  /** Some command of the one and some command of the other have the same key; a command id is never empty. */
  ghost predicate Collide(a: string, b: string) {
    exists x, y :: x != "" && y != "" && Key(a, x) == Key(b, y)
  }

  /** Two different scopes share a key exactly when one of them starts with the other followed by a NUL. */
  lemma ScopesCollideIff(a: string, b: string)
    requires a != b
    ensures Collide(a, b) <==> a + [NUL] <= b || b + [NUL] <= a
  {
    if Collide(a, b) {
      var x, y :| x != "" && y != "" && Key(a, x) == Key(b, y);
      CollisionNests(a, x, b, y);
    }
    if a + [NUL] <= b {
      NestedCollides(a, b);
    } else if b + [NUL] <= a {
      NestedCollides(b, a);
      var x, y :| x != "" && y != "" && Key(b, x) == Key(a, y);
      assert Key(a, y) == Key(b, x);
    }
  }

  lemma CollisionNests(a: string, x: string, b: string, y: string)
    requires a != b && Key(a, x) == Key(b, y)
    ensures a + [NUL] <= b || b + [NUL] <= a
  {
    var k := Key(a, x);
    assert k[..|a|] == a && k[|a|] == NUL && k[..|b|] == b && k[|b|] == NUL;
    if |a| < |b| {
      assert a + [NUL] == k[..|a| + 1] == b[..|a| + 1];
    } else if |b| < |a| {
      assert b + [NUL] == k[..|b| + 1] == a[..|b| + 1];
    }
  }

  lemma NestedCollides(a: string, b: string)
    requires a + [NUL] <= b
    ensures Collide(a, b)
  {
    var z := b[|a| + 1..];
    assert b == a + [NUL] + z;
    assert Key(a, z + [NUL] + "c") == Key(b, "c");
  }

  // ---- the scopes a connection can have -----------------------------------------------------------------------

  const MAX_INSTANCE_ID: nat := 128

  /** A token's id as the token store makes it: the first eight characters of a UUID. */
  predicate TokenId(id: string) {
    |id| == 8 && NUL !in id
  }

  /** What a connection keeps of the instance id its `hello` carried, if any. */
  function KeptInstance(sent: Option<string>): Option<string> {
    match sent
    case None => None
    case Some(s) =>
      if s == "" then None else if |s| > MAX_INSTANCE_ID then Some(s[..MAX_INSTANCE_ID]) else Some(s)
  }

  function CacheScope(tokenId: string, instanceId: Option<string>): string {
    match instanceId case Some(i) => tokenId + ":" + i case None => tokenId
  }

  /** One instance id continues the other with a NUL. */
  predicate Continues(a: string, b: string) {
    a + [NUL] <= b || b + [NUL] <= a
  }

  /**
   * Whatever two clients send in `hello`, they can see each other's replies exactly when they use the same token and
   * what is kept of their instance ids is the same, or one kept id continues the other with a NUL.
   */
  lemma InstallsShareRepliesIff(tokenA: string, sentA: Option<string>, tokenB: string, sentB: Option<string>)
    requires TokenId(tokenA) && TokenId(tokenB)
    ensures
      var a, b := KeptInstance(sentA), KeptInstance(sentB);
      Collide(CacheScope(tokenA, a), CacheScope(tokenB, b)) <==>
        tokenA == tokenB && (a == b || (a.Some? && b.Some? && Continues(a.value, b.value)))
  {
    var a, b := KeptInstance(sentA), KeptInstance(sentB);
    var x, y := CacheScope(tokenA, a), CacheScope(tokenB, b);
    assert x[..8] == tokenA && y[..8] == tokenB;
    if x == y {
      assert Key(x, "c") == Key(y, "c");
      assert a.Some? ==> x[9..] == a.value;
      assert b.Some? ==> y[9..] == b.value;
    } else {
      ScopesCollideIff(x, y);
      NestedScopes(tokenA, a, tokenB, b);
      NestedScopes(tokenB, b, tokenA, a);
    }
  }

  lemma NestedScopes(tokenA: string, a: Option<string>, tokenB: string, b: Option<string>)
    requires TokenId(tokenA) && TokenId(tokenB)
    ensures CacheScope(tokenA, a) + [NUL] <= CacheScope(tokenB, b)
            <==> tokenA == tokenB && a.Some? && b.Some? && a.value + [NUL] <= b.value
  {
    var x, y := CacheScope(tokenA, a) + [NUL], CacheScope(tokenB, b);
    assert x[..8] == tokenA && y[..8] == tokenB;
    if x <= y {
      assert x[..8] == y[..8];
      assert x[8] == y[8];
      if a.Some? && b.Some? {
        assert x[9..] == a.value + [NUL] && y[9..] == b.value;
        assert x == y[..|x|];
        assert x[9..] == y[9..|x|];
      }
    }
  }

  /** Clients with different tokens never do, whatever else they send. */
  lemma TokensNeverShareReplies(tokenA: string, sentA: Option<string>, tokenB: string, sentB: Option<string>)
    requires TokenId(tokenA) && TokenId(tokenB) && tokenA != tokenB
    ensures !Collide(CacheScope(tokenA, KeptInstance(sentA)), CacheScope(tokenB, KeptInstance(sentB)))
  {
    hide Collide;
    InstallsShareRepliesIff(tokenA, sentA, tokenB, sentB);
  }

  /** Two instance ids are one to the daemon exactly when they agree in their first 128 characters. */
  lemma LongInstancesAreOne(x: string, y: string)
    requires x != "" && y != ""
    ensures KeptInstance(Some(x)) == KeptInstance(Some(y)) <==> x == y || (|x| >= 128 && |y| >= 128 && x[..128] == y[..128])
  {
    assert |x| <= 128 ==> KeptInstance(Some(x)) == Some(x);
    assert |y| <= 128 ==> KeptInstance(Some(y)) == Some(y);
    assert |x| == 128 ==> x[..128] == x;
    assert |y| == 128 ==> y[..128] == y;
  }

  /** Two installs of one token that do: `x`, and `x`, NUL, `y`. */
  lemma InstallsCanShareReplies(token: string)
    requires TokenId(token)
    ensures
      var a, b := KeptInstance(Some("x")), KeptInstance(Some("x" + [NUL] + "y"));
      && a != b && Key(CacheScope(token, a), "y" + [NUL] + "c") == Key(CacheScope(token, b), "c")
      && Collide(CacheScope(token, a), CacheScope(token, b))
  {
    var a, b := CacheScope(token, Some("x")), CacheScope(token, Some("x" + [NUL] + "y"));
    assert Key(a, "y" + [NUL] + "c") == Key(b, "c");
  }

  // ---- the operations as functions ----------------------------------------------------------------------------

  predicate Live<R>(c: Cache<R>, ttl: nat, now: int, k: string) {
    k in c.entries && now - c.entries[k].at <= ttl
  }

  /** What `get` answers. */
  function Found<R>(c: Cache<R>, ttl: nat, now: int, k: string): Option<R> {
    if Live(c, ttl, now, k) then Some(c.entries[k].reply) else None
  }

  /** An expired entry is dropped when it is looked up. */
  function LookedUp<R>(c: Cache<R>, ttl: nat, now: int, k: string): Cache<R> {
    if Live(c, ttl, now, k) then c else c.(entries := c.entries - {k})
  }

  function Stored<R>(c: Cache<R>, now: int, k: string, reply: R): Cache<R> {
    c.(entries := c.entries[k := Cached(now, reply)])
  }

  function Tracked<R>(c: Cache<R>, k: string): Cache<R> {
    c.(inflight := c.inflight + {k})
  }

  function Settled<R>(c: Cache<R>, now: int, k: string, reply: R): Cache<R> {
    Stored(c.(inflight := c.inflight - {k}), now, k, reply)
  }

  function Swept<R>(c: Cache<R>, ttl: nat, now: int): Cache<R> {
    c.(entries := map k | k in c.entries && c.entries[k].at >= now - ttl :: c.entries[k])
  }

  /** Sweeping never changes what a lookup answers, then or later. */
  lemma SweepInvisible<R>(c: Cache<R>, ttl: nat, now: int, later: int, k: string)
    requires now <= later
    ensures Found(Swept(c, ttl, now), ttl, later, k) == Found(c, ttl, later, k)
  {
  }

  /** Nor does looking another key up. */
  lemma LookupInvisible<R>(c: Cache<R>, ttl: nat, now: int, later: int, k: string, x: string)
    requires now <= later
    ensures Found(LookedUp(c, ttl, now, k), ttl, later, x) == Found(c, ttl, later, x)
  {
  }

  // ---- dispatch -----------------------------------------------------------------------------------------------

  /** One time a cacheable command ran, and the reply it gave. */
  datatype Ran<R> = Ran(key: string, startedAt: int, done: Option<Cached<R>>)

  datatype Dispatcher<R> = Dispatcher(cache: Cache<R>, now: int, ran: seq<Ran<R>>)

  /** `Command` carries the reply of a command that finishes at once; an asynchronous one settles later. */
  datatype Step<R> =
    | Tick(to: int)
    | Command(key: string, atOnce: Option<R>)
    | Settle(key: string, reply: R)
    | Sweep

  datatype Verdict<R> = Replayed(reply: R) | Joined | Dispatched

  function Decide<R>(d: Dispatcher<R>, ttl: nat, key: string): Verdict<R> {
    match Found(d.cache, ttl, d.now, key)
    case Some(reply) => Replayed(reply)
    case None => if key in d.cache.inflight then Joined else Dispatched
  }

  ghost predicate Allowed<R>(d: Dispatcher<R>, step: Step<R>) {
    match step
    case Tick(to) => d.now <= to
    case Command(_, _) => true
    case Settle(key, _) => key in d.cache.inflight
    case Sweep => true
  }

  /** The run of `key` still waiting for its reply gets it. */
  function WithReply<R>(ran: seq<Ran<R>>, key: string, done: Cached<R>): (after: seq<Ran<R>>)
    ensures |after| == |ran|
  {
    if ran == [] then []
    else if ran[|ran| - 1].key == key then ran[|ran| - 1 := ran[|ran| - 1].(done := Some(done))]
    else WithReply(ran[..|ran| - 1], key, done) + [ran[|ran| - 1]]
  }

  function Next<R>(d: Dispatcher<R>, ttl: nat, step: Step<R>): Dispatcher<R> {
    match step
    case Tick(to) => d.(now := to)
    case Command(key, atOnce) =>
      var c := LookedUp(d.cache, ttl, d.now, key);
      if Decide(d, ttl, key) != Dispatched then d.(cache := c)
      else if atOnce.Some? then
        var done := Cached(d.now, atOnce.value);
        Dispatcher(Stored(c, d.now, key, atOnce.value), d.now, d.ran + [Ran(key, d.now, Some(done))])
      else Dispatcher(Tracked(c, key), d.now, d.ran + [Ran(key, d.now, None)])
    case Settle(key, reply) =>
      Dispatcher(Settled(d.cache, d.now, key, reply), d.now, WithReply(d.ran, key, Cached(d.now, reply)))
    case Sweep => d.(cache := Swept(d.cache, ttl, d.now))
  }

  // ---- at most once -------------------------------------------------------------------------------------------

  /** The last run of the key, if any. */
  function Latest<R>(ran: seq<Ran<R>>, key: string): Option<Ran<R>> {
    if ran == [] then None
    else if ran[|ran| - 1].key == key then Some(ran[|ran| - 1])
    else Latest(ran[..|ran| - 1], key)
  }

  /** Runs of one key are more than the time to live apart, counted from the earlier one's reply. */
  ghost predicate Apart<R>(ran: seq<Ran<R>>, ttl: nat) {
    forall i, j | 0 <= i < j < |ran| && ran[i].key == ran[j].key ::
      ran[i].done.Some? && ran[j].startedAt - ran[i].done.value.at > ttl
  }

  /** The cache remembers the last run of the key for as long as it must. */
  ghost predicate Remembers<R>(d: Dispatcher<R>, ttl: nat, key: string) {
    match Latest(d.ran, key)
    case None => key !in d.cache.inflight && Found(d.cache, ttl, d.now, key) == None
    case Some(r) =>
      match r.done
      case None => key in d.cache.inflight && Found(d.cache, ttl, d.now, key) == None
      case Some(done) =>
        && key !in d.cache.inflight && done.at <= d.now
        && (d.now - done.at <= ttl ==> key in d.cache.entries)
        && (key in d.cache.entries ==> d.cache.entries[key] == done)
  }

  ghost predicate Inv<R(!new)>(d: Dispatcher<R>, ttl: nat) {
    && Apart(d.ran, ttl)
    && (forall i | 0 <= i < |d.ran| :: d.ran[i].startedAt <= d.now)
    && forall key :: Remembers(d, ttl, key)
  }

  lemma LatestSnoc<R>(ran: seq<Ran<R>>, r: Ran<R>, key: string)
    ensures Latest(ran + [r], key) == if r.key == key then Some(r) else Latest(ran, key)
  {
    assert (ran + [r])[..|ran|] == ran;
  }

  lemma {:induction false} LatestWithReply<R>(ran: seq<Ran<R>>, key: string, done: Cached<R>, x: string)
    ensures Latest(WithReply(ran, key, done), x) ==
      if x == key && Latest(ran, key).Some? then Some(Latest(ran, key).value.(done := Some(done))) else Latest(ran, x)
    ensures forall i | 0 <= i < |ran| :: WithReply(ran, key, done)[i].key == ran[i].key
                                      && WithReply(ran, key, done)[i].startedAt == ran[i].startedAt
  {
    if ran != [] {
      var n := |ran| - 1;
      if ran[n].key == key {
        var after := ran[n := ran[n].(done := Some(done))];
        assert after == ran[..n] + [after[n]] && ran == ran[..n] + [ran[n]];
        LatestSnoc(ran[..n], after[n], x);
      } else {
        LatestWithReply(ran[..n], key, done, x);
        LatestSnoc(WithReply(ran[..n], key, done), ran[n], x);
      }
    }
  }

  /** Only the last run of the key changes. */
  lemma {:induction false} WithReplyElsewhere<R>(ran: seq<Ran<R>>, key: string, done: Cached<R>, i: nat, j: nat)
    requires i < j < |ran| && ran[i].key == ran[j].key
    ensures WithReply(ran, key, done)[i] == ran[i]
  {
    var n := |ran| - 1;
    if ran[n].key == key {
    } else if j < n {
      WithReplyElsewhere(ran[..n], key, done, i, j);
    } else {
      UntouchedRun(ran[..n], key, done, i);
    }
  }

  lemma {:induction false} UntouchedRun<R>(ran: seq<Ran<R>>, key: string, done: Cached<R>, i: nat)
    requires i < |ran| && ran[i].key != key
    ensures WithReply(ran, key, done)[i] == ran[i]
  {
    var n := |ran| - 1;
    if ran[n].key != key && i < n {
      UntouchedRun(ran[..n], key, done, i);
    }
  }

  /** A run's key has a last run at or after it. */
  lemma {:induction false} LatestIsLast<R>(ran: seq<Ran<R>>, i: nat) returns (j: nat)
    requires i < |ran|
    ensures i <= j < |ran| && Latest(ran, ran[i].key) == Some(ran[j]) && ran[j].key == ran[i].key
  {
    var n := |ran| - 1;
    if ran[n].key == ran[i].key {
      j := n;
    } else {
      j := LatestIsLast(ran[..n], i);
    }
  }

  /** A command that is dispatched now is more than the time to live after every earlier reply to its key. */
  lemma DispatchIsLate<R(!new)>(d: Dispatcher<R>, ttl: nat, key: string, r: Ran<R>)
    requires Inv(d, ttl) && Decide(d, ttl, key) == Dispatched && r.key == key && r.startedAt == d.now
    ensures Apart(d.ran + [r], ttl)
  {
    var more := d.ran + [r];
    forall i, j | 0 <= i < j < |more| && more[i].key == more[j].key
      ensures more[i].done.Some? && more[j].startedAt - more[i].done.value.at > ttl
    {
      if j == |d.ran| {
        var last := LatestIsLast(d.ran, i);
        assert Remembers(d, ttl, key);
      }
    }
  }

  lemma CommandKeepsInv<R(!new)>(d: Dispatcher<R>, ttl: nat, key: string, atOnce: Option<R>)
    requires Inv(d, ttl)
    ensures Inv(Next(d, ttl, Command(key, atOnce)), ttl)
  {
    var d' := Next(d, ttl, Command(key, atOnce));
    var r := Ran(key, d.now, if atOnce.Some? then Some(Cached(d.now, atOnce.value)) else None);
    if Decide(d, ttl, key) == Dispatched {
      DispatchIsLate(d, ttl, key, r);
    }
    forall x
      ensures Remembers(d', ttl, x)
    {
      assert Remembers(d, ttl, x);
      LatestSnoc(d.ran, r, x);
    }
  }

  lemma ReplyKeepsApart<R>(ran: seq<Ran<R>>, ttl: nat, key: string, done: Cached<R>)
    requires Apart(ran, ttl)
    ensures Apart(WithReply(ran, key, done), ttl)
  {
    hide WithReply;
    var after := WithReply(ran, key, done);
    LatestWithReply(ran, key, done, key);
    forall i, j | 0 <= i < j < |after| && after[i].key == after[j].key
      ensures after[i].done.Some? && after[j].startedAt - after[i].done.value.at > ttl
    {
      WithReplyElsewhere(ran, key, done, i, j);
    }
  }

  lemma SettleKeepsInv<R(!new)>(d: Dispatcher<R>, ttl: nat, key: string, reply: R)
    requires Inv(d, ttl) && key in d.cache.inflight
    ensures Inv(Next(d, ttl, Settle(key, reply)), ttl)
  {
    var done := Cached(d.now, reply);
    var d' := Next(d, ttl, Settle(key, reply));
    hide Apart, WithReply;
    LatestWithReply(d.ran, key, done, key);
    ReplyKeepsApart(d.ran, ttl, key, done);
    forall x
      ensures Remembers(d', ttl, x)
    {
      assert Remembers(d, ttl, x);
      LatestWithReply(d.ran, key, done, x);
    }
  }

  lemma StepKeepsInv<R(!new)>(d: Dispatcher<R>, ttl: nat, step: Step<R>)
    requires Inv(d, ttl) && Allowed(d, step)
    ensures Inv(Next(d, ttl, step), ttl)
  {
    match step
    case Command(key, atOnce) => CommandKeepsInv(d, ttl, key, atOnce);
    case Settle(key, reply) => SettleKeepsInv(d, ttl, key, reply);
    case _ =>
      forall x
        ensures Remembers(Next(d, ttl, step), ttl, x)
      {
        assert Remembers(d, ttl, x);
      }
  }

  ghost predicate IsRun<R(!new)>(d: Dispatcher<R>, ttl: nat, steps: seq<Step<R>>, end: Dispatcher<R>)
    decreases |steps|
  {
    if steps == [] then d == end
    else Allowed(d, steps[0]) && IsRun(Next(d, ttl, steps[0]), ttl, steps[1..], end)
  }

  lemma {:induction false} RunKeepsInv<R(!new)>(d: Dispatcher<R>, ttl: nat, steps: seq<Step<R>>, end: Dispatcher<R>)
    requires Inv(d, ttl) && IsRun(d, ttl, steps, end)
    ensures Inv(end, ttl)
    decreases |steps|
  {
    if steps != [] {
      StepKeepsInv(d, ttl, steps[0]);
      RunKeepsInv(Next(d, ttl, steps[0]), ttl, steps[1..], end);
    }
  }

  function Start<R>(now: int): Dispatcher<R> {
    Dispatcher(Cache(map[], {}), now, [])
  }

  /**
   * At most once: in every run, a second dispatch of the same command comes only after the first one replied, and
   * more than the time to live after that reply; until then a retry is answered with that very reply, or joins.
   */
  lemma AtMostOnce<R(!new)>(ttl: nat, now: int, steps: seq<Step<R>>, d: Dispatcher<R>, key: string)
    requires IsRun(Start(now), ttl, steps, d)
    ensures Apart(d.ran, ttl)
    ensures
      match Decide(d, ttl, key)
      case Replayed(reply) =>
        Latest(d.ran, key).Some? && Latest(d.ran, key).value.done.Some?
        && Latest(d.ran, key).value.done.value.reply == reply
        && d.now - Latest(d.ran, key).value.done.value.at <= ttl
      case Joined => Latest(d.ran, key).Some? && Latest(d.ran, key).value.done.None?
      case Dispatched => Apart(d.ran + [Ran(key, d.now, None)], ttl)
  {
    var start: Dispatcher<R> := Start(now);
    assert Inv(start, ttl);
    RunKeepsInv(start, ttl, steps, d);
    assert Remembers(d, ttl, key);
    if Decide(d, ttl, key) == Dispatched {
      DispatchIsLate(d, ttl, key, Ran(key, d.now, None));
    }
  }

  // ---- the object ---------------------------------------------------------------------------------------------

  class CommandCache<R> {
    const ttlMs: nat
    var entries: map<string, Cached<R>>
    var inflight: set<string>

    ghost function Value(): Cache<R>
      reads this
    {
      Cache(entries, inflight)
    }

    constructor (ttlMs: nat)
      ensures this.ttlMs == ttlMs && Value() == Cache(map[], {})
    {
      this.ttlMs := ttlMs;
      entries, inflight := map[], {};
    }

    method Get(scope: string, cmdId: string, now: int) returns (r: Option<R>)
      modifies this`entries
      ensures r == Found(old(Value()), ttlMs, now, Key(scope, cmdId))
      ensures Value() == LookedUp(old(Value()), ttlMs, now, Key(scope, cmdId))
    {
      var k := Key(scope, cmdId);
      if k !in entries {
        assert entries == entries - {k};
        return None;
      }
      if now - entries[k].at > ttlMs {
        entries := entries - {k};
        return None;
      }
      r := Some(entries[k].reply);
    }

    method Set(scope: string, cmdId: string, reply: R, now: int)
      modifies this`entries
      ensures Value() == Stored(old(Value()), now, Key(scope, cmdId), reply)
    {
      entries := entries[Key(scope, cmdId) := Cached(now, reply)];
    }

    method IsPending(scope: string, cmdId: string) returns (running: bool)
      ensures running <==> Key(scope, cmdId) in Value().inflight
    {
      running := Key(scope, cmdId) in inflight;
    }

    method Track(scope: string, cmdId: string)
      modifies this`inflight
      ensures Value() == Tracked(old(Value()), Key(scope, cmdId))
    {
      inflight := inflight + {Key(scope, cmdId)};
    }

    /** The tracked command's promise settled. */
    method Settle(scope: string, cmdId: string, reply: R, now: int)
      modifies this
      ensures Value() == Settled(old(Value()), now, Key(scope, cmdId), reply)
    {
      inflight := inflight - {Key(scope, cmdId)};
      entries := entries[Key(scope, cmdId) := Cached(now, reply)];
    }

    method Sweep(now: int)
      modifies this`entries
      ensures Value() == Swept(old(Value()), ttlMs, now)
    {
      var cutoff := now - ttlMs;
      var left := entries.Keys;
      while left != {}
        invariant left <= old(entries).Keys
        invariant forall k :: k in entries <==> k in old(entries) && (k in left || old(entries)[k].at >= cutoff)
        invariant forall k | k in entries :: entries[k] == old(entries)[k]
        decreases left
      {
        var k :| k in left;
        left := left - {k};
        if k in entries && entries[k].at < cutoff {
          entries := entries - {k};
        }
      }
    }
  }
}
