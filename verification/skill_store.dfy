/**
 * The store of skill trees an admin client uploads (`daemon/skillStore.ts`): content is staged file by file, verified
 * on commit, and pruned, first what is too old and then, over the budget, what was touched longest ago.
 *
 * A tree is its files by path; a directory listing is the order of the pairs. `Store` is the disk as a value, class
 * `SkillStore` the object. Hashing and case folding are parameters.
 */
module SkillStores {
  import opened Common
  import opened OrderedMap

  const MAX_FILES: nat := 2000
  const MAX_BYTES: nat := 20 * 1024 * 1024
  const MAX_DEPTH: nat := 12
  const INCOMING_MAX_AGE: nat := 24 * 60 * 60 * 1000

  /** The segments of a relative path; the last is the file's name. */
  type Path = seq<string>

  datatype File = File(executable: bool, data: bytes)

  type Files = Pairs<Path, File>

  datatype Tree = Tree(mtime: int, files: Files)

  type Trees = Pairs<string, Tree>

  datatype Store = Store(trees: Trees, incoming: Trees)

  /** `named(dir, hash)`: the directory's name ends with the hash's first twelve digits. */
  datatype Config = Config(budget: nat, pruneAge: nat, hash: Files -> string, fold: Path -> Path,
                           named: (string, string) -> bool)

  // ---- sizes --------------------------------------------------------------------------------------------------

  function TreeBytes(files: Files): nat {
    if files == [] then 0 else |files[0].1.data| + TreeBytes(files[1..])
  }

  function Bytes(trees: Trees): nat {
    if trees == [] then 0 else TreeBytes(trees[0].1.files) + Bytes(trees[1..])
  }

  /** Trees and uploads alike take up the budget. */
  function TotalBytes(s: Store): nat {
    Bytes(s.trees) + Bytes(s.incoming)
  }

  lemma {:induction false} BytesDelete(trees: Trees, k: string)
    ensures Bytes(Delete(trees, k)) ==
            Bytes(trees) - match Get(trees, k) case Some(t) => TreeBytes(t.files) case None => 0
  {
    if trees != [] && trees[0].0 != k {
      BytesDelete(trees[1..], k);
    }
  }

  lemma {:induction false} BytesPut(trees: Trees, k: string, t: Tree)
    requires !Has(trees, k)
    ensures Bytes(Put(trees, k, t)) == Bytes(trees) + TreeBytes(t.files)
  {
    if trees != [] {
      BytesPut(trees[1..], k, t);
    }
  }

  lemma {:induction false} BytesWhere(trees: Trees, p: (string, Tree) -> bool)
    ensures Bytes(Where(trees, p)) <= Bytes(trees)
  {
    if trees != [] {
      BytesWhere(trees[1..], p);
      var rest := Where(trees[1..], p);
      assert ([trees[0]] + rest)[1..] == rest && [] + rest == rest;
    }
  }

  // ---- pruning ------------------------------------------------------------------------------------------------

  /** Stable, least recently touched first. */
  function SortedByAge(m: Trees): Trees {
    if m == [] then [] else Insert(m[0], SortedByAge(m[1..]))
  }

  function Insert(kv: (string, Tree), m: Trees): Trees {
    if m == [] || kv.1.mtime <= m[0].1.mtime then [kv] + m else [m[0]] + Insert(kv, m[1..])
  }

  predicate TooOld(cfg: Config, used: set<string>, now: int, name: string, t: Tree) {
    name !in used && now - t.mtime > cfg.pruneAge
  }

  /** How many of the trees, oldest first, must go for the excess to. */
  function EvictCount(lru: Trees, over: int): (n: nat)
    ensures n <= |lru|
  {
    if lru == [] || over <= 0 then 0 else 1 + EvictCount(lru[1..], over - TreeBytes(lru[0].1.files))
  }

  function Evicted(trees: Trees, lru: Trees): Trees
    decreases |lru|
  {
    if lru == [] then trees else Evicted(Delete(trees, lru[0].0), lru[1..])
  }

  /** After the age pass. */
  function Aged(cfg: Config, s: Store, used: set<string>, now: int): Store {
    Store(Where(s.trees, (name, t) => !TooOld(cfg, used, now, name, t)),
          Where(s.incoming, (name, t: Tree) => now - t.mtime <= INCOMING_MAX_AGE))
  }

  function Lru(trees: Trees, used: set<string>): Trees {
    SortedByAge(Where(trees, (name, t) => name !in used))
  }

  function Pruned(cfg: Config, s: Store, used: set<string>, now: int): Store {
    var aged := Aged(cfg, s, used, now);
    var lru := Lru(aged.trees, used);
    aged.(trees := Evicted(aged.trees, lru[..EvictCount(lru, TotalBytes(aged) - cfg.budget)]))
  }

  ghost predicate Valid(s: Store) {
    Unique(s.trees) && Unique(s.incoming)
  }

  ghost predicate Oldest(m: Trees) {
    forall i, j | 0 <= i < j < |m| :: m[i].1.mtime <= m[j].1.mtime
  }

  lemma {:induction false} InsertKeeps(kv: (string, Tree), m: Trees, k: string)
    requires Oldest(m)
    ensures Oldest(Insert(kv, m))
    ensures !Has(m, kv.0) ==> Get(Insert(kv, m), k) == if k == kv.0 then Some(kv.1) else Get(m, k)
  {
    if m != [] && kv.1.mtime > m[0].1.mtime {
      InsertKeeps(kv, m[1..], k);
      InsertFirst(kv, m[1..]);
      var rest := Insert(kv, m[1..]);
      forall i, j | 0 <= i < j < |rest| + 1 ensures ([m[0]] + rest)[i].1.mtime <= ([m[0]] + rest)[j].1.mtime {
        if i == 0 {
          assert rest[0].1.mtime <= rest[j - 1].1.mtime;
        }
      }
    }
  }

  lemma InsertFirst(kv: (string, Tree), m: Trees)
    ensures Insert(kv, m) != [] && (Insert(kv, m)[0] == kv || (m != [] && Insert(kv, m)[0] == m[0]))
  {
  }

  lemma {:induction false} InsertUnique(kv: (string, Tree), m: Trees)
    requires Oldest(m) && Unique(m) && !Has(m, kv.0)
    ensures Unique(Insert(kv, m))
  {
    if m == [] || kv.1.mtime <= m[0].1.mtime {
      assert ([kv] + m)[1..] == m;
    } else {
      InsertUnique(kv, m[1..]);
      InsertKeeps(kv, m[1..], m[0].0);
    }
  }

  lemma {:induction false} SortedKeeps(m: Trees, k: string)
    requires Unique(m)
    ensures Oldest(SortedByAge(m)) && Unique(SortedByAge(m)) && Get(SortedByAge(m), k) == Get(m, k)
  {
    if m != [] {
      SortedKeeps(m[1..], k);
      SortedKeeps(m[1..], m[0].0);
      InsertKeeps(m[0], SortedByAge(m[1..]), k);
      InsertUnique(m[0], SortedByAge(m[1..]));
    }
  }

  /** Taking the trees out one by one. */
  lemma {:induction false} EvictedGet(trees: Trees, lru: Trees, k: string)
    requires Unique(trees)
    ensures Unique(Evicted(trees, lru)) && Get(Evicted(trees, lru), k) == if Has(lru, k) then None else Get(trees, k)
    decreases |lru|
  {
    if lru != [] {
      DeleteUnique(trees, lru[0].0);
      GetDelete(trees, lru[0].0, k);
      EvictedGet(Delete(trees, lru[0].0), lru[1..], k);
    }
  }

  lemma {:induction false} EvictedBytes(trees: Trees, lru: Trees)
    requires Unique(trees) && Unique(lru) && forall k | Has(lru, k) :: Get(trees, k) == Get(lru, k)
    ensures Bytes(Evicted(trees, lru)) == Bytes(trees) - Bytes(lru)
    decreases |lru|
  {
    if lru != [] {
      var k := lru[0].0;
      assert Has(lru, k);
      BytesDelete(trees, k);
      DeleteUnique(trees, k);
      forall x | Has(lru[1..], x) ensures Get(Delete(trees, k), x) == Get(lru[1..], x) {
        assert Has(lru, x);
        GetDelete(trees, k, x);
      }
      EvictedBytes(Delete(trees, k), lru[1..]);
    }
  }

  /** The count is the least that is enough, or all of them. */
  lemma {:induction false} EvictCountIsLeast(lru: Trees, over: int)
    ensures
      var n := EvictCount(lru, over);
      && (n < |lru| ==> Bytes(lru[..n]) >= over) && (n > 0 ==> Bytes(lru[..n - 1]) < over)
  {
    var n := EvictCount(lru, over);
    if lru != [] && over > 0 {
      EvictCountIsLeast(lru[1..], over - TreeBytes(lru[0].1.files));
      assert lru[..n][1..] == lru[1..][..n - 1];
      if n > 1 {
        assert lru[..n - 1][1..] == lru[1..][..n - 2];
      }
    }
  }

  /** After the age pass a tree is there unless it is too old; the eviction list is the unused ones, oldest first. */
  lemma AgedGet(cfg: Config, s: Store, used: set<string>, now: int, k: string)
    requires Valid(s)
    ensures
      var aged := Aged(cfg, s, used, now);
      && Valid(aged)
      && Get(aged.trees, k) == (match Get(s.trees, k)
                                case Some(t) => if TooOld(cfg, used, now, k, t) then None else Some(t)
                                case None => None)
      && Get(aged.incoming, k) == (match Get(s.incoming, k)
                                   case Some(t) => if now - t.mtime <= INCOMING_MAX_AGE then Some(t) else None
                                   case None => None)
  {
    WhereUnique(s.trees, (name, t) => !TooOld(cfg, used, now, name, t));
    GetWhere(s.trees, (name, t) => !TooOld(cfg, used, now, name, t), k);
    WhereUnique(s.incoming, (name, t: Tree) => now - t.mtime <= INCOMING_MAX_AGE);
    GetWhere(s.incoming, (name, t: Tree) => now - t.mtime <= INCOMING_MAX_AGE, k);
  }

  lemma LruGet(trees: Trees, used: set<string>, k: string)
    requires Unique(trees)
    ensures
      var lru := Lru(trees, used);
      && Unique(lru) && Oldest(lru) && Get(lru, k) == if k in used then None else Get(trees, k)
  {
    WhereUnique(trees, (name, t) => name !in used);
    GetWhere(trees, (name, t) => name !in used, k);
    SortedKeeps(Where(trees, (name, t) => name !in used), k);
  }

  /** Which trees are in a prefix of the eviction list. */
  lemma PrefixGet(lru: Trees, n: nat, k: string)
    requires Unique(lru) && n <= |lru|
    ensures Get(lru[..n], k).Some? ==> Get(lru[..n], k) == Get(lru, k)
    ensures Unique(lru[..n])
    ensures Has(lru[..n], k) <==> exists i | 0 <= i < n :: lru[i].0 == k
  {
    assert lru[..n] + lru[n..] == lru;
    GetAppend(lru[..n], lru[n..], k);
    PrefixUnique(lru, n);
    if Has(lru[..n], k) {
      var i := FindGet(lru[..n], k);
      assert lru[i].0 == k;
    }
    if i :| 0 <= i < n && lru[i].0 == k {
      GetAt(lru[..n], i);
    }
  }

  lemma {:induction false} PrefixUnique(m: Trees, n: nat)
    requires Unique(m) && n <= |m|
    ensures Unique(m[..n])
  {
    if n > 0 {
      assert m[..n][1..] == m[1..][..n - 1];
      PrefixUnique(m[1..], n - 1);
      assert m[1..][..n - 1] + m[1..][n - 1..] == m[1..];
      GetAppend(m[1..][..n - 1], m[1..][n - 1..], m[0].0);
    }
  }

  /** What pruning does to one tree: gone when too old, or when it is among the first of the eviction list. */
  lemma PrunedGet(cfg: Config, s: Store, used: set<string>, now: int, k: string)
    requires Valid(s)
    ensures
      var (aged, after) := (Aged(cfg, s, used, now), Pruned(cfg, s, used, now));
      var lru := Lru(aged.trees, used);
      var n := EvictCount(lru, TotalBytes(aged) - cfg.budget);
      && Valid(after) && after.incoming == aged.incoming
      && Get(after.trees, k) == if exists i | 0 <= i < n :: lru[i].0 == k then None else Get(aged.trees, k)
  {
    hide EvictCount, Lru, Aged, TotalBytes, Unique;
    var aged := Aged(cfg, s, used, now);
    AgedGet(cfg, s, used, now, k);
    var lru := Lru(aged.trees, used);
    LruGet(aged.trees, used, k);
    var n := EvictCount(lru, TotalBytes(aged) - cfg.budget);
    EvictedGet(aged.trees, lru[..n], k);
    PrefixGet(lru, n, k);
  }

  /** A tree a live session names is never removed, and no tree is changed; abandoned uploads go, others stay. */
  lemma PruneSpares(cfg: Config, s: Store, used: set<string>, now: int, k: string)
    requires Valid(s)
    ensures
      var after := Pruned(cfg, s, used, now);
      && Valid(after)
      && (k in used ==> Get(after.trees, k) == Get(s.trees, k))
      && (Has(after.trees, k) ==> Get(after.trees, k) == Get(s.trees, k))
      && (Has(after.trees, k) ==> !TooOld(cfg, used, now, k, Get(after.trees, k).value))
      && Get(after.incoming, k) == (match Get(s.incoming, k)
                                    case Some(t) => if now - t.mtime <= INCOMING_MAX_AGE then Some(t) else None
                                    case None => None)
  {
    hide EvictCount, Lru, Pruned, Unique, Aged;
    PrunedGet(cfg, s, used, now, k);
    AgedGet(cfg, s, used, now, k);
    var aged := Aged(cfg, s, used, now);
    var lru := Lru(aged.trees, used);
    if i :| 0 <= i < EvictCount(lru, TotalBytes(aged) - cfg.budget) && lru[i].0 == k {
      LruGet(aged.trees, used, k);
      GetAt(lru, i);
    }
  }

  /** What the budget takes is older than, or as old as, every unused tree it leaves. */
  lemma PruneIsLru(cfg: Config, s: Store, used: set<string>, now: int, x: string, y: string)
    requires Valid(s) && Has(s.trees, x) && !TooOld(cfg, used, now, x, Get(s.trees, x).value)
    requires
      var after := Pruned(cfg, s, used, now);
      !Has(after.trees, x) && Has(after.trees, y) && y !in used
    ensures Has(s.trees, y) && Get(s.trees, x).value.mtime <= Get(s.trees, y).value.mtime
  {
    hide EvictCount, Lru, Pruned, Unique, Aged;
    var aged := Aged(cfg, s, used, now);
    var lru := Lru(aged.trees, used);
    var n := EvictCount(lru, TotalBytes(aged) - cfg.budget);
    PrunedGet(cfg, s, used, now, x);
    PrunedGet(cfg, s, used, now, y);
    AgedGet(cfg, s, used, now, x);
    AgedGet(cfg, s, used, now, y);
    var i :| 0 <= i < n && lru[i].0 == x;
    LruGet(aged.trees, used, x);
    LruGet(aged.trees, used, y);
    GetAt(lru, i);
    var j := FindGet(lru, y);
    assert n <= j;
  }

  /** Pruning ends within the budget, or with nothing but trees in use. */
  lemma PruneEnds(cfg: Config, s: Store, used: set<string>, now: int)
    requires Valid(s)
    ensures
      var after := Pruned(cfg, s, used, now);
      TotalBytes(after) <= cfg.budget || forall k | Has(after.trees, k) :: k in used
  {
    hide EvictCount, Lru, Unique, Aged, TotalBytes, Pruned;
    var aged, after := Aged(cfg, s, used, now), Pruned(cfg, s, used, now);
    var lru := Lru(aged.trees, used);
    AgedGet(cfg, s, used, now, "");
    PrunedBytes(cfg, s, used, now);
    EvictCountIsLeast(lru, TotalBytes(aged) - cfg.budget);
    if EvictCount(lru, TotalBytes(aged) - cfg.budget) == |lru| {
      forall k | Has(after.trees, k) ensures k in used {
        PrunedGet(cfg, s, used, now, k);
        LruGet(aged.trees, used, k);
        if k !in used {
          var j := FindGet(lru, k);
        }
      }
    }
  }

  /** And it takes no more than needed: with the last tree the budget took still there, the store is over it. */
  lemma PruneTakesLeast(cfg: Config, s: Store, used: set<string>, now: int)
    requires Valid(s) && Pruned(cfg, s, used, now).trees != Aged(cfg, s, used, now).trees
    ensures
      var after := Pruned(cfg, s, used, now);
      exists x | Has(s.trees, x) && !Has(after.trees, x) && !TooOld(cfg, used, now, x, Get(s.trees, x).value) ::
        TotalBytes(after) + TreeBytes(Get(s.trees, x).value.files) > cfg.budget
  {
    hide EvictCount, Lru, Unique, Aged, TotalBytes;
    var aged, after := Aged(cfg, s, used, now), Pruned(cfg, s, used, now);
    var lru := Lru(aged.trees, used);
    var n := EvictCount(lru, TotalBytes(aged) - cfg.budget);
    assert lru[..0] == [];
    var x := lru[n - 1].0;
    LastEvicted(cfg, s, used, now, n);
    PrunedBytes(cfg, s, used, now);
    EvictCountIsLeast(lru, TotalBytes(aged) - cfg.budget);
    LastBytes(lru, n);
    assert Has(s.trees, x) && !Has(after.trees, x);
  }

  lemma LastEvicted(cfg: Config, s: Store, used: set<string>, now: int, n: nat)
    requires Valid(s)
    requires
      var aged := Aged(cfg, s, used, now);
      0 < n == EvictCount(Lru(aged.trees, used), TotalBytes(aged) - cfg.budget)
    ensures
      var kv := Lru(Aged(cfg, s, used, now).trees, used)[n - 1];
      && Get(s.trees, kv.0) == Some(kv.1) && !Has(Pruned(cfg, s, used, now).trees, kv.0)
      && !TooOld(cfg, used, now, kv.0, kv.1)
  {
    hide EvictCount, Lru, Unique, Aged, TotalBytes, Pruned, TooOld;
    var aged := Aged(cfg, s, used, now);
    var lru := Lru(aged.trees, used);
    AgedGet(cfg, s, used, now, lru[n - 1].0);
    LruGet(aged.trees, used, lru[n - 1].0);
    GetAt(lru, n - 1);
    PrunedGet(cfg, s, used, now, lru[n - 1].0);
  }

  lemma PrunedBytes(cfg: Config, s: Store, used: set<string>, now: int)
    requires Valid(s)
    ensures
      var aged := Aged(cfg, s, used, now);
      var lru := Lru(aged.trees, used);
      TotalBytes(Pruned(cfg, s, used, now)) ==
      TotalBytes(aged) - Bytes(lru[..EvictCount(lru, TotalBytes(aged) - cfg.budget)])
  {
    hide EvictCount, Lru, Unique, Aged;
    var aged := Aged(cfg, s, used, now);
    var lru := Lru(aged.trees, used);
    var gone := lru[..EvictCount(lru, TotalBytes(aged) - cfg.budget)];
    AgedGet(cfg, s, used, now, "");
    LruGet(aged.trees, used, "");
    PrefixGet(lru, |gone|, "");
    forall k | Has(gone, k) ensures Get(aged.trees, k) == Get(gone, k) {
      PrefixGet(lru, |gone|, k);
      LruGet(aged.trees, used, k);
    }
    EvictedBytes(aged.trees, gone);
  }

  lemma {:induction false} LastBytes(m: Trees, n: nat)
    requires 0 < n <= |m|
    ensures Bytes(m[..n]) == Bytes(m[..n - 1]) + TreeBytes(m[n - 1].1.files)
  {
    assert m[..n][1..] == m[1..][..n - 1];
    if n > 1 {
      LastBytes(m[1..], n - 1);
      assert m[..n - 1][1..] == m[1..][..n - 2];
    }
  }

  // ---- staging ------------------------------------------------------------------------------------------------

  type Frame = seq<(Path, File)>

  predicate FrameOk(frame: Frame) {
    |frame| <= MAX_FILES && forall i | 0 <= i < |frame| :: 0 < |frame[i].0| <= MAX_DEPTH + 1
  }

  /** Some file is staged in the way: at a directory of the path, or below the path. */
  predicate Obstructed(files: Files, p: Path) {
    exists i | 0 <= i < |files| :: files[i].0 < p || p < files[i].0
  }

  predicate HasTop(files: Files, segment: string) {
    exists i | 0 <= i < |files| :: files[i].0 != [] && files[i].0[0] == segment
  }

  /** An exclusive create: a path that is already there must hold the same content. */
  function WriteStaged(stage: Tree, p: Path, f: File, now: int): Option<Tree>
    requires p != []
  {
    if Obstructed(stage.files, p) then None
    else match Get(stage.files, p)
      case Some(there) => if there.data == f.data then Some(stage) else None
      case None => Some(Tree(if HasTop(stage.files, p[0]) then stage.mtime else now, stage.files + [(p, f)]))
  }

  /** The loop of `put`: it stops at the first file refused, and what was staged before stays. */
  function PutFrom(cfg: Config, stage: Tree, used: nat, seen: set<Path>, frame: Frame, now: int): (Tree, bool)
    requires FrameOk(frame)
    decreases |frame|
  {
    if frame == [] then (stage, true)
    else
      var (p, f) := frame[0];
      if cfg.fold(p) in seen || |f.data| > MAX_BYTES || used + |f.data| > MAX_BYTES then (stage, false)
      else match WriteStaged(stage, p, f, now)
        case None => (stage, false)
        case Some(next) => PutFrom(cfg, next, used + |f.data|, seen + {cfg.fold(p)}, frame[1..], now)
  }

  function Staged(cfg: Config, s: Store, upload: string, frame: Frame, now: int): (Store, bool) {
    if !FrameOk(frame) then (s, false)
    else
      var stage := match Get(s.incoming, upload) case Some(t) => t case None => Tree(now, []);
      var (after, ok) := PutFrom(cfg, stage, TreeBytes(stage.files), {}, frame, now);
      (s.(incoming := Put(s.incoming, upload, after)), ok)
  }

  /** Nothing that was there is changed. */
  ghost predicate Extends(before: Files, after: Files) {
    forall p | Has(before, p) :: Get(after, p) == Get(before, p)
  }

  lemma {:induction false} BytesAppend(files: Files, p: Path, f: File)
    ensures TreeBytes(files + [(p, f)]) == TreeBytes(files) + |f.data|
  {
    if files == [] {
      assert files + [(p, f)] == [(p, f)];
    } else {
      assert (files + [(p, f)])[1..] == files[1..] + [(p, f)];
      BytesAppend(files[1..], p, f);
    }
  }

  lemma WriteKeeps(stage: Tree, p: Path, f: File, now: int)
    requires p != [] && Unique(stage.files) && WriteStaged(stage, p, f, now).Some?
    ensures
      var after := WriteStaged(stage, p, f, now).value;
      && Unique(after.files) && Extends(stage.files, after.files)
      && Has(after.files, p) && Get(after.files, p).value.data == f.data
      && TreeBytes(after.files) <= TreeBytes(stage.files) + |f.data|
      && (after.files != stage.files ==> TreeBytes(after.files) == TreeBytes(stage.files) + |f.data|)
  {
    hide Obstructed, HasTop;
    if !Has(stage.files, p) {
      AppendUnique(stage.files, p, f);
      BytesAppend(stage.files, p, f);
      forall q ensures Get(stage.files + [(p, f)], q) == if Has(stage.files, q) then Get(stage.files, q)
                                                          else if q == p then Some(f) else None {
        GetAppend(stage.files, [(p, f)], q);
      }
    }
  }

  /** `put`: what was staged is never changed; on success every file is there; and the size stays within the limit. */
  lemma {:induction false} PutKeeps(cfg: Config, stage: Tree, used: nat, seen: set<Path>, frame: Frame, now: int)
    requires FrameOk(frame) && Unique(stage.files) && TreeBytes(stage.files) <= used
    ensures
      var (after, ok) := PutFrom(cfg, stage, used, seen, frame, now);
      && Unique(after.files) && Extends(stage.files, after.files)
      && (after.files != stage.files ==> TreeBytes(after.files) <= MAX_BYTES)
      && (ok ==> forall i | 0 <= i < |frame| ::
            Has(after.files, frame[i].0) && Get(after.files, frame[i].0).value.data == frame[i].1.data)
    decreases |frame|
  {
    hide WriteStaged, Unique;
    if frame != [] {
      var (p, f) := frame[0];
      if !(cfg.fold(p) in seen || |f.data| > MAX_BYTES || used + |f.data| > MAX_BYTES) {
        var next := WriteStaged(stage, p, f, now);
        if next.Some? {
          WriteKeeps(stage, p, f, now);
          PutKeeps(cfg, next.value, used + |f.data|, seen + {cfg.fold(p)}, frame[1..], now);
          var (after, ok) := PutFrom(cfg, stage, used, seen, frame, now);
          forall i | ok && 0 <= i < |frame|
            ensures Has(after.files, frame[i].0) && Get(after.files, frame[i].0).value.data == frame[i].1.data {
            if i > 0 {
              assert frame[1..][i - 1] == frame[i];
            }
          }
        }
      }
    }
  }

  // ---- committing ---------------------------------------------------------------------------------------------

  /** The clock as one `commit` reads it: pruning to make room, touching the new tree, pruning at the end. */
  datatype Times = Times(room: int, touch: int, last: int)

  datatype Reply = Committed(created: bool) | Refused

  datatype Claim = Claim(dir: string, hash: string, files: int, bytes: int)

  function Touched(trees: Trees, dir: string, now: int): Trees {
    match Get(trees, dir) case Some(t) => Put(trees, dir, t.(mtime := now)) case None => trees
  }

  function Discarded(s: Store, upload: string): Store {
    s.(incoming := Delete(s.incoming, upload))
  }

  /** No two staged paths are the same ignoring case. */
  predicate FoldedApart(cfg: Config, files: Files) {
    forall i, j | 0 <= i < j < |files| :: cfg.fold(files[i].0) != cfg.fold(files[j].0)
  }

  predicate Verifies(cfg: Config, files: Files, claim: Claim) {
    && FoldedApart(cfg, files) && |files| <= MAX_FILES && TreeBytes(files) <= MAX_BYTES
    && |files| == claim.files && TreeBytes(files) == claim.bytes && cfg.hash(files) == claim.hash
  }

  function StageBytes(s: Store, upload: string): nat {
    match Get(s.incoming, upload) case Some(t) => TreeBytes(t.files) case None => 0
  }

  predicate Fits(cfg: Config, s: Store, upload: string, size: nat) {
    TotalBytes(s) - StageBytes(s, upload) + size <= cfg.budget
  }

  /** The store after making room, when that is needed. */
  function Roomy(cfg: Config, s: Store, used: set<string>, upload: string, size: nat, now: int): Store {
    if Fits(cfg, s, upload, size) then s else Pruned(cfg, s, used, now)
  }

  function CommittedTo(cfg: Config, s: Store, used: set<string>, upload: string, claim: Claim, at: Times):
    (Store, Reply)
  {
    if !cfg.named(claim.dir, claim.hash) then (s, Refused)
    else if Has(s.trees, claim.dir) then
      (Discarded(s, upload).(trees := Touched(s.trees, claim.dir, at.touch)), Committed(false))
    else if !Has(s.incoming, upload) then (s, Refused)
    else
      var files := Get(s.incoming, upload).value.files;
      if !Verifies(cfg, files, claim) then (Discarded(s, upload), Refused)
      else
        var room := Roomy(cfg, s, used, upload, TreeBytes(files), at.room);
        // Making room can take the upload itself, when it is older than a day: then there is nothing to rename.
        if !Fits(cfg, room, upload, TreeBytes(files)) || !Has(room.incoming, upload) then
          (Discarded(room, upload), Refused)
        else (Pruned(cfg, Renamed(room, upload, claim.dir, at.touch), used, at.last), Committed(true))
  }

  function Renamed(s: Store, upload: string, dir: string, now: int): Store
    requires Has(s.incoming, upload)
  {
    Store(Put(s.trees, dir, Tree(now, Get(s.incoming, upload).value.files)), Delete(s.incoming, upload))
  }

  /** Moving the upload into place changes no total. */
  lemma RenamedKeeps(s: Store, upload: string, dir: string, now: int, k: string)
    requires Valid(s) && Has(s.incoming, upload) && !Has(s.trees, dir)
    ensures
      var after := Renamed(s, upload, dir, now);
      && Valid(after) && TotalBytes(after) == TotalBytes(s)
      && Get(after.trees, k) == (if k == dir then Some(Tree(now, Get(s.incoming, upload).value.files))
                                 else Get(s.trees, k))
      && Get(after.incoming, k) == (if k == upload then None else Get(s.incoming, k))
  {
    var t := Tree(now, Get(s.incoming, upload).value.files);
    PutUnique(s.trees, dir, t);
    GetPut(s.trees, dir, t, k);
    BytesPut(s.trees, dir, t);
    DeleteUnique(s.incoming, upload);
    GetDelete(s.incoming, upload, k);
    BytesDelete(s.incoming, upload);
  }

  /** A store within its budget loses nothing to it: pruning is the age pass alone. */
  lemma WithinBudgetIsAgedOnly(cfg: Config, s: Store, used: set<string>, now: int)
    requires Valid(s) && TotalBytes(s) <= cfg.budget
    ensures Pruned(cfg, s, used, now) == Aged(cfg, s, used, now)
    ensures TotalBytes(Pruned(cfg, s, used, now)) <= cfg.budget
  {
    BytesWhere(s.trees, (name, t) => !TooOld(cfg, used, now, name, t));
    BytesWhere(s.incoming, (name, t: Tree) => now - t.mtime <= INCOMING_MAX_AGE);
    var lru := Lru(Aged(cfg, s, used, now).trees, used);
    assert lru[..0] == [];
  }

  lemma RoomyKeeps(cfg: Config, s: Store, used: set<string>, upload: string, size: nat, now: int, k: string)
    requires Valid(s)
    ensures
      var room := Roomy(cfg, s, used, upload, size, now);
      && Valid(room)
      && (k in used ==> Get(room.trees, k) == Get(s.trees, k))
      && (Has(room.trees, k) ==> Get(room.trees, k) == Get(s.trees, k))
      && (Has(room.incoming, k) ==> Get(room.incoming, k) == Get(s.incoming, k))
  {
    hide Pruned, Fits, Unique;
    PruneSpares(cfg, s, used, now, k);
  }

  /**
   * Which commits create a tree: the name is of the claimed hash and free, the upload is there and verifies, and it
   * fits; or it fits once room is made, and was touched within a day of that. For making room discards uploads older
   * than a day, the one being committed among them.
   */
  lemma CommitCreatesIff(cfg: Config, s: Store, used: set<string>, upload: string, claim: Claim, at: Times)
    requires Valid(s)
    ensures CommittedTo(cfg, s, used, upload, claim, at).1 == Committed(true) <==>
      && cfg.named(claim.dir, claim.hash) && !Has(s.trees, claim.dir) && Has(s.incoming, upload)
      && var t := Get(s.incoming, upload).value;
      && Verifies(cfg, t.files, claim)
      && (|| Fits(cfg, s, upload, TreeBytes(t.files))
          || (Fits(cfg, Pruned(cfg, s, used, at.room), upload, TreeBytes(t.files))
              && at.room - t.mtime <= INCOMING_MAX_AGE))
  {
    hide Pruned, Fits, Unique, Verifies;
    PruneSpares(cfg, s, used, at.room, upload);
  }

  /**
   * A day-old upload is refused because of its age alone: in a store over its budget it fits once the old tree is
   * pruned, but the same pruning discards it. Touched a moment later, it is committed.
   */
  lemma StaleUploadIsRefused()
    ensures
      var cfg := Config(1, 0, (files: Files) => "h", (p: Path) => p, (dir: string, hash: string) => true);
      var trees := [("old", Tree(0, [(["f"], File(false, [0, 0]))]))];
      var files := [(["f"], File(false, [0]))];
      var claim := Claim("new", "h", 1, 1);
      var at := Times(INCOMING_MAX_AGE + 1, INCOMING_MAX_AGE + 1, INCOMING_MAX_AGE + 1);
      && CommittedTo(cfg, Store(trees, [("up", Tree(0, files))]), {}, "up", claim, at).1 == Refused
      && Fits(cfg, Pruned(cfg, Store(trees, [("up", Tree(0, files))]), {}, at.room), "up", TreeBytes(files))
      && CommittedTo(cfg, Store(trees, [("up", Tree(1, files))]), {}, "up", claim, at).1 == Committed(true)
  {
    StaleUpload(0);
    StaleUpload(1);
  }

  lemma WhereOne(kv: (string, Tree), p: (string, Tree) -> bool)
    ensures Where([kv], p) == if p(kv.0, kv.1) then [kv] else []
  {
    assert [kv][1..] == [];
  }

  /** The store of the example, the upload touched at `mtime`. */
  lemma StaleUpload(mtime: int)
    requires mtime == 0 || mtime == 1
    ensures
      var cfg := Config(1, 0, (files: Files) => "h", (p: Path) => p, (dir: string, hash: string) => true);
      var files := [(["f"], File(false, [0]))];
      var s := Store([("old", Tree(0, [(["f"], File(false, [0, 0]))]))], [("up", Tree(mtime, files))]);
      var at := Times(INCOMING_MAX_AGE + 1, INCOMING_MAX_AGE + 1, INCOMING_MAX_AGE + 1);
      && Fits(cfg, Pruned(cfg, s, {}, at.room), "up", TreeBytes(files))
      && (CommittedTo(cfg, s, {}, "up", Claim("new", "h", 1, 1), at).1 == Committed(true) <==> mtime == 1)
      && (mtime == 0 ==> CommittedTo(cfg, s, {}, "up", Claim("new", "h", 1, 1), at).1 == Refused)
  {
    var cfg := Config(1, 0, (files: Files) => "h", (p: Path) => p, (dir: string, hash: string) => true);
    var files := [(["f"], File(false, [0]))];
    var s := Store([("old", Tree(0, [(["f"], File(false, [0, 0]))]))], [("up", Tree(mtime, files))]);
    var at := Times(INCOMING_MAX_AGE + 1, INCOMING_MAX_AGE + 1, INCOMING_MAX_AGE + 1);
    var aged := Aged(cfg, s, {}, at.room);
    assert files[1..] == [] && s.trees[1..] == [] && s.incoming[1..] == [] && s.trees[0].1.files[1..] == [];
    assert TreeBytes(files) == 1 && TreeBytes(s.trees[0].1.files) == 2;
    assert TotalBytes(s) == 3 && StageBytes(s, "up") == 1;
    WhereOne(s.trees[0], (name, t) => !TooOld(cfg, {}, at.room, name, t));
    WhereOne(s.incoming[0], (name, t: Tree) => at.room - t.mtime <= INCOMING_MAX_AGE);
    assert aged.trees == [] && aged.incoming == if mtime == 0 then [] else s.incoming;
    assert Valid(s);
    assert Lru([], {}) == [];
    assert Pruned(cfg, s, {}, at.room) == aged;
    CommitCreatesIff(cfg, s, {}, "up", Claim("new", "h", 1, 1), at);
  }

  /**
   * A commit that creates a tree ends within the budget, with the upload gone and exactly the uploaded files, whose
   * hash is the one claimed, under the name; they are there unless the prune age passed while the commit ran and no
   * session names them.
   */
  lemma CommitCreates(cfg: Config, s: Store, used: set<string>, upload: string, claim: Claim, at: Times)
    requires Valid(s) && CommittedTo(cfg, s, used, upload, claim, at).1 == Committed(true)
    ensures
      var after := CommittedTo(cfg, s, used, upload, claim, at).0;
      && Has(s.incoming, upload) && !Has(after.incoming, upload) && !Has(s.trees, claim.dir)
      && cfg.hash(Get(s.incoming, upload).value.files) == claim.hash
      && TotalBytes(after) <= cfg.budget
      && Get(after.trees, claim.dir) ==
         (if claim.dir in used || at.last - at.touch <= cfg.pruneAge
          then Some(Tree(at.touch, Get(s.incoming, upload).value.files)) else None)
  {
    hide Unique, Lru, EvictCount, Aged, TotalBytes, Pruned, FoldedApart;
    var files := Get(s.incoming, upload).value.files;
    var room := Roomy(cfg, s, used, upload, TreeBytes(files), at.room);
    RoomyKeeps(cfg, s, used, upload, TreeBytes(files), at.room, upload);
    RoomyKeeps(cfg, s, used, upload, TreeBytes(files), at.room, claim.dir);
    var moved := Renamed(room, upload, claim.dir, at.touch);
    RenamedKeeps(room, upload, claim.dir, at.touch, claim.dir);
    RenamedKeeps(room, upload, claim.dir, at.touch, upload);
    WithinBudgetIsAgedOnly(cfg, moved, used, at.last);
    AgedGet(cfg, moved, used, at.last, claim.dir);
    AgedGet(cfg, moved, used, at.last, upload);
  }

  // ---- whole runs ---------------------------------------------------------------------------------------------

  datatype Step =
    | Sync(dirs: seq<string>, now: int)
    | Stage(upload: string, frame: Frame, now: int)
    | Commit(upload: string, claim: Claim, at: Times)
    | Prune(now: int)

  /** `sync` touches the trees it already has, each once. */
  function Synced(s: Store, dirs: seq<string>, seen: set<string>, now: int): Store
    decreases |dirs|
  {
    if dirs == [] then s
    else if dirs[0] in seen then Synced(s, dirs[1..], seen, now)
    else Synced(s.(trees := Touched(s.trees, dirs[0], now)), dirs[1..], seen + {dirs[0]}, now)
  }

  function Next(cfg: Config, s: Store, used: set<string>, step: Step): Store {
    match step
    case Sync(dirs, now) => Synced(s, dirs, {}, now)
    case Stage(upload, frame, now) => Staged(cfg, s, upload, frame, now).0
    case Commit(upload, claim, at) => CommittedTo(cfg, s, used, upload, claim, at).0
    case Prune(now) => Pruned(cfg, s, used, now)
  }

  ghost predicate Sound(cfg: Config, name: string, files: Files) {
    cfg.named(name, cfg.hash(files)) && TreeBytes(files) <= MAX_BYTES && Unique(files)
  }

  /** Every tree is what its name says; every upload is a tree within the limit. */
  ghost predicate Inv(cfg: Config, s: Store) {
    && Valid(s)
    && (forall k | Has(s.trees, k) :: Sound(cfg, k, Get(s.trees, k).value.files))
    && (forall u | Has(s.incoming, u) ::
          Unique(Get(s.incoming, u).value.files) && TreeBytes(Get(s.incoming, u).value.files) <= MAX_BYTES)
  }

  /** What one step does to the content of one tree and one upload. */
  ghost predicate Kept(s: Store, after: Store, used: set<string>, k: string) {
    && (Has(s.trees, k) && Has(after.trees, k) ==> Get(after.trees, k).value.files == Get(s.trees, k).value.files)
    && (Has(s.trees, k) && k in used ==> Has(after.trees, k))
    && (Has(s.incoming, k) && Has(after.incoming, k) ==>
          Extends(Get(s.incoming, k).value.files, Get(after.incoming, k).value.files))
  }

  ghost predicate KeyInv(cfg: Config, s: Store, k: string) {
    && (Has(s.trees, k) ==> Sound(cfg, k, Get(s.trees, k).value.files))
    && (Has(s.incoming, k) ==>
          Unique(Get(s.incoming, k).value.files) && TreeBytes(Get(s.incoming, k).value.files) <= MAX_BYTES)
  }

  lemma TouchedGet(trees: Trees, dir: string, now: int, k: string)
    requires Unique(trees)
    ensures
      var after := Touched(trees, dir, now);
      && Unique(after) && (Has(after, k) <==> Has(trees, k))
      && (Has(trees, k) ==> Get(after, k) == Some(if k == dir then Get(trees, k).value.(mtime := now)
                                                   else Get(trees, k).value))
  {
    if Has(trees, dir) {
      PutUnique(trees, dir, Get(trees, dir).value.(mtime := now));
      GetPut(trees, dir, Get(trees, dir).value.(mtime := now), k);
    }
  }

  /** `sync` changes only when trees were last touched. */
  lemma {:induction false} SyncedGet(s: Store, dirs: seq<string>, seen: set<string>, now: int, k: string)
    requires Valid(s)
    ensures
      var after := Synced(s, dirs, seen, now);
      && Valid(after) && after.incoming == s.incoming && (Has(after.trees, k) <==> Has(s.trees, k))
      && (Has(s.trees, k) ==> Get(after.trees, k) == Some(if k in dirs && k !in seen
                                                           then Get(s.trees, k).value.(mtime := now)
                                                           else Get(s.trees, k).value))
    decreases |dirs|
  {
    hide Touched, Unique;
    if dirs != [] {
      assert k in dirs <==> k == dirs[0] || k in dirs[1..];
      if dirs[0] in seen {
        SyncedGet(s, dirs[1..], seen, now, k);
      } else {
        TouchedGet(s.trees, dirs[0], now, k);
        SyncedGet(s.(trees := Touched(s.trees, dirs[0], now)), dirs[1..], seen + {dirs[0]}, now, k);
      }
    }
  }

  lemma StageStep(cfg: Config, s: Store, used: set<string>, upload: string, frame: Frame, now: int, k: string)
    requires Inv(cfg, s)
    ensures
      var after := Staged(cfg, s, upload, frame, now).0;
      Valid(after) && KeyInv(cfg, after, k) && Kept(s, after, used, k)
  {
    hide PutFrom, Sound, Unique;
    if FrameOk(frame) {
      var stage := match Get(s.incoming, upload) case Some(t) => t case None => Tree(now, []);
      NoFiles();
      PutKeeps(cfg, stage, TreeBytes(stage.files), {}, frame, now);
      var after := PutFrom(cfg, stage, TreeBytes(stage.files), {}, frame, now).0;
      PutUnique(s.incoming, upload, after);
      GetPut(s.incoming, upload, after, k);
    }
  }

  lemma NoFiles()
    ensures Unique<Path, File>([]) && TreeBytes([]) == 0
  {
  }

  lemma DiscardStep(cfg: Config, s: Store, used: set<string>, upload: string, k: string)
    requires Valid(s) && KeyInv(cfg, s, k)
    ensures
      var after := Discarded(s, upload);
      Valid(after) && KeyInv(cfg, after, k) && Kept(s, after, used, k)
  {
    hide Sound, TreeBytes;
    DeleteUnique(s.incoming, upload);
    GetDelete(s.incoming, upload, k);
  }

  lemma PruneStep(cfg: Config, s: Store, used: set<string>, now: int, k: string)
    requires Valid(s) && KeyInv(cfg, s, k)
    ensures
      var after := Pruned(cfg, s, used, now);
      Valid(after) && KeyInv(cfg, after, k) && Kept(s, after, used, k)
  {
    hide Sound, TreeBytes, Unique, Pruned;
    PruneSpares(cfg, s, used, now, k);
  }

  lemma KeptTwice(s: Store, mid: Store, after: Store, used: set<string>, k: string)
    requires Kept(s, mid, used, k) && Kept(mid, after, used, k)
    requires Has(after.trees, k) && Has(s.trees, k) ==> Has(mid.trees, k)
    requires Has(after.incoming, k) && Has(s.incoming, k) ==> Has(mid.incoming, k)
    ensures Kept(s, after, used, k)
  {
  }

  lemma RenameStep(cfg: Config, s: Store, used: set<string>, upload: string, claim: Claim, now: int, k: string)
    requires Valid(s) && KeyInv(cfg, s, k) && KeyInv(cfg, s, upload)
    requires Has(s.incoming, upload) && !Has(s.trees, claim.dir) && cfg.named(claim.dir, claim.hash)
    requires Verifies(cfg, Get(s.incoming, upload).value.files, claim)
    ensures
      var after := Renamed(s, upload, claim.dir, now);
      && Valid(after) && KeyInv(cfg, after, k) && Kept(s, after, used, k)
      && (Has(after.trees, k) ==> k == claim.dir || Has(s.trees, k))
      && (Has(after.incoming, k) ==> Has(s.incoming, k))
  {
    hide TreeBytes, Unique, FoldedApart;
    RenamedKeeps(s, upload, claim.dir, now, k);
  }

  lemma CreateStep(cfg: Config, s: Store, used: set<string>, upload: string, claim: Claim, at: Times, k: string)
    requires Inv(cfg, s) && CommittedTo(cfg, s, used, upload, claim, at).1 == Committed(true)
    ensures
      var after := CommittedTo(cfg, s, used, upload, claim, at).0;
      Valid(after) && KeyInv(cfg, after, k) && Kept(s, after, used, k)
  {
    hide Pruned, Sound, TreeBytes, Unique, Verifies, Roomy, Fits, Renamed, KeyInv;
    var size := TreeBytes(Get(s.incoming, upload).value.files);
    var room := Roomy(cfg, s, used, upload, size, at.room);
    var moved := Renamed(room, upload, claim.dir, at.touch);
    RoomStep(cfg, s, used, upload, size, at.room, k);
    RoomStep(cfg, s, used, upload, size, at.room, upload);
    RoomyKeeps(cfg, s, used, upload, size, at.room, upload);
    RoomyKeeps(cfg, s, used, upload, size, at.room, claim.dir);
    RenameStep(cfg, room, used, upload, claim, at.touch, k);
    KeptTwice(s, room, moved, used, k);
    PruneStep(cfg, moved, used, at.last, k);
    PruneSpares(cfg, moved, used, at.last, k);
    KeptTwice(s, moved, Pruned(cfg, moved, used, at.last), used, k);
  }

  lemma RoomStep(cfg: Config, s: Store, used: set<string>, upload: string, size: nat, now: int, k: string)
    requires Inv(cfg, s)
    ensures
      var room := Roomy(cfg, s, used, upload, size, now);
      && Valid(room) && KeyInv(cfg, room, k) && Kept(s, room, used, k)
      && (Has(room.trees, k) ==> Has(s.trees, k)) && (Has(room.incoming, k) ==> Has(s.incoming, k))
  {
    hide Sound, TreeBytes, Unique, Fits, Pruned;
    PruneStep(cfg, s, used, now, k);
    PruneSpares(cfg, s, used, now, k);
  }

  lemma CommitStep(cfg: Config, s: Store, used: set<string>, upload: string, claim: Claim, at: Times, k: string)
    requires Inv(cfg, s)
    ensures
      var after := CommittedTo(cfg, s, used, upload, claim, at).0;
      Valid(after) && KeyInv(cfg, after, k) && Kept(s, after, used, k)
  {
    hide Pruned, Sound, TreeBytes, Unique, Verifies, Touched, Fits, Roomy, Renamed;
    if CommittedTo(cfg, s, used, upload, claim, at).1 == Committed(true) {
      CreateStep(cfg, s, used, upload, claim, at, k);
    } else {
      DiscardStep(cfg, s, used, upload, k);
      TouchedGet(s.trees, claim.dir, at.touch, k);
      if Has(s.incoming, upload) {
        var size := TreeBytes(Get(s.incoming, upload).value.files);
        var room := Roomy(cfg, s, used, upload, size, at.room);
        RoomStep(cfg, s, used, upload, size, at.room, k);
        DiscardStep(cfg, room, used, upload, k);
        DeletedOnly(room.incoming, upload, k);
        KeptTwice(s, room, Discarded(room, upload), used, k);
      }
    }
  }

  lemma DeletedOnly(m: Trees, k: string, x: string)
    requires Unique(m)
    ensures Has(Delete(m, k), x) ==> Has(m, x)
  {
    GetDelete(m, k, x);
  }

  /** No step changes a tree's files or an upload's staged ones, or removes a tree a live session names. */
  lemma StepKeeps(cfg: Config, s: Store, used: set<string>, step: Step, k: string)
    requires Inv(cfg, s)
    ensures
      var after := Next(cfg, s, used, step);
      Valid(after) && KeyInv(cfg, after, k) && Kept(s, after, used, k)
  {
    hide Sound, Unique, Pruned, Staged, CommittedTo;
    match step {
      case Sync(dirs, now) => SyncedGet(s, dirs, {}, now, k);
      case Stage(upload, frame, now) => StageStep(cfg, s, used, upload, frame, now, k);
      case Commit(upload, claim, at) => CommitStep(cfg, s, used, upload, claim, at, k);
      case Prune(now) => PruneStep(cfg, s, used, now, k);
    }
  }

  lemma StepKeepsInv(cfg: Config, s: Store, used: set<string>, step: Step)
    requires Inv(cfg, s)
    ensures Inv(cfg, Next(cfg, s, used, step))
  {
    hide Sound, Unique, Next;
    var after := Next(cfg, s, used, step);
    StepKeeps(cfg, s, used, step, "");
    forall k | Has(after.trees, k) ensures Sound(cfg, k, Get(after.trees, k).value.files) {
      StepKeeps(cfg, s, used, step, k);
    }
    forall k | Has(after.incoming, k)
      ensures var t := Get(after.incoming, k).value; Unique(t.files) && TreeBytes(t.files) <= MAX_BYTES {
      StepKeeps(cfg, s, used, step, k);
    }
  }

  /** A run: every step with the trees live sessions name at the time. */
  function After(cfg: Config, s: Store, steps: seq<(set<string>, Step)>): Store
    decreases |steps|
  {
    if steps == [] then s else After(cfg, Next(cfg, s, steps[0].0, steps[0].1), steps[1..])
  }

  /**
   * Over every run in which a live session names a tree at each step, the tree is still there at the end with the very
   * same files, and every tree's name still carries the hash of its content.
   */
  lemma {:induction false} TreesAreConstant(cfg: Config, s: Store, steps: seq<(set<string>, Step)>, k: string)
    requires Inv(cfg, s) && Has(s.trees, k) && forall i | 0 <= i < |steps| :: k in steps[i].0
    ensures Inv(cfg, After(cfg, s, steps))
    ensures
      var after := After(cfg, s, steps);
      Has(after.trees, k) && Get(after.trees, k).value.files == Get(s.trees, k).value.files
    decreases |steps|
  {
    hide Inv, Next;
    if steps != [] {
      var next := Next(cfg, s, steps[0].0, steps[0].1);
      StepKeeps(cfg, s, steps[0].0, steps[0].1, k);
      StepKeepsInv(cfg, s, steps[0].0, steps[0].1);
      TreesAreConstant(cfg, next, steps[1..], k);
    }
  }

  lemma {:induction false} RunKeepsInv(cfg: Config, s: Store, steps: seq<(set<string>, Step)>)
    requires Inv(cfg, s)
    ensures Inv(cfg, After(cfg, s, steps))
    decreases |steps|
  {
    hide Inv, Next;
    if steps != [] {
      StepKeepsInv(cfg, s, steps[0].0, steps[0].1);
      RunKeepsInv(cfg, Next(cfg, s, steps[0].0, steps[0].1), steps[1..]);
    }
  }

  // ---- the object ---------------------------------------------------------------------------------------------

  class SkillStore {
    const cfg: Config
    var trees: Trees
    var incoming: Trees

    ghost function Model(): Store
      reads this
    {
      Store(trees, incoming)
    }

    constructor (cfg: Config)
      ensures this.cfg == cfg && Model() == Store([], []) && Inv(cfg, Model())
    {
      this.cfg, trees, incoming := cfg, [], [];
    }

    method Sync(dirs: seq<string>, now: int) returns (have: seq<string>, missing: seq<string>)
      requires Valid(Model())
      modifies `trees
      ensures Model() == Synced(old(Model()), dirs, {}, now)
      ensures forall d :: d in have <==> d in dirs && Has(old(trees), d)
      ensures forall d :: d in missing <==> d in dirs && !Has(old(trees), d)
    {
      have, missing := [], [];
      var i := 0;
      assert dirs[0..] == dirs && (set d | d in have + missing) == {};
      while i < |dirs|
        invariant 0 <= i <= |dirs| && Valid(Model()) && incoming == old(incoming)
        invariant Synced(Model(), dirs[i..], (set d | d in have + missing), now) == Synced(old(Model()), dirs, {}, now)
        invariant forall d :: Has(trees, d) <==> Has(old(trees), d)
        invariant forall d :: d in have <==> d in dirs[..i] && Has(old(trees), d)
        invariant forall d :: d in missing <==> d in dirs[..i] && !Has(old(trees), d)
      {
        forall d ensures Has(Touched(trees, dirs[i], now), d) <==> Has(trees, d)
                 ensures Unique(Touched(trees, dirs[i], now)) {
          TouchedGet(trees, dirs[i], now, d);
        }
        assert dirs[i..][1..] == dirs[i + 1..] && dirs[..i + 1] == dirs[..i] + [dirs[i]];
        ghost var seen := set d | d in have + missing;
        if dirs[i] in have || dirs[i] in missing {
          assert dirs[i] in seen;
        } else if Has(trees, dirs[i]) {
          trees := Touched(trees, dirs[i], now);
          have := have + [dirs[i]];
        } else {
          missing := missing + [dirs[i]];
        }
        assert dirs[i] !in seen ==> (set d | d in have + missing) == seen + {dirs[i]};
        i := i + 1;
      }
    }

    /** Files are staged one by one, until one is refused. */
    method Stage(upload: string, frame: Frame, now: int) returns (ok: bool)
      modifies `incoming
      ensures (Model(), ok) == Staged(cfg, old(Model()), upload, frame, now)
    {
      hide WriteStaged, TreeBytes, Get, Put;
      if |frame| > MAX_FILES || exists i | 0 <= i < |frame| :: !(0 < |frame[i].0| <= MAX_DEPTH + 1) {
        return false;
      }
      var found := Get(incoming, upload);
      var stage := if found.Some? then found.value else Tree(now, []);
      var used: nat, seen, i := TreeBytes(stage.files), {}, 0;
      ok := true;
      assert frame[0..] == frame;
      ghost var (after, all) := PutFrom(cfg, stage, used, seen, frame, now);
      while i < |frame| && ok
        invariant 0 <= i <= |frame| && FrameOk(frame[i..])
        invariant !ok ==> !all && stage == after
        invariant ok ==> PutFrom(cfg, stage, used, seen, frame[i..], now) == (after, all)
        decreases |frame| - i, ok
      {
        var (p, f) := frame[i];
        assert frame[i..][0] == frame[i] && frame[i..][1..] == frame[i + 1..];
        if cfg.fold(p) in seen || |f.data| > MAX_BYTES || used + |f.data| > MAX_BYTES {
          ok := false;
        } else {
          var next := WriteStaged(stage, p, f, now);
          if next.None? {
            ok := false;
          } else {
            stage, used, seen := next.value, used + |f.data|, seen + {cfg.fold(p)};
            i := i + 1;
          }
        }
      }
      incoming := Put(incoming, upload, stage);
    }

    method Commit(used: set<string>, upload: string, claim: Claim, at: Times) returns (reply: Reply)
      requires Valid(Model())
      modifies this
      ensures (Model(), reply) == CommittedTo(cfg, old(Model()), used, upload, claim, at) && Valid(Model())
    {
      hide Unique, Pruned, Verifies, Bytes, TreeBytes, Touched;
      if !cfg.named(claim.dir, claim.hash) {
        return Refused;
      }
      DeleteUnique(incoming, upload);
      if Has(trees, claim.dir) {
        TouchedGet(trees, claim.dir, at.touch, "");
        incoming, trees := Delete(incoming, upload), Touched(trees, claim.dir, at.touch);
        return Committed(false);
      }
      if !Has(incoming, upload) {
        return Refused;
      }
      var files := Get(incoming, upload).value.files;
      if !Verifies(cfg, files, claim) {
        incoming := Delete(incoming, upload);
        return Refused;
      }
      var size := TreeBytes(files);
      RoomyKeeps(cfg, Model(), used, upload, size, at.room, claim.dir);
      if !Fits(cfg, Store(trees, incoming), upload, size) {
        Prune(used, at.room);
      }
      var fits := Fits(cfg, Store(trees, incoming), upload, size);
      DeleteUnique(incoming, upload);
      if !fits || !Has(incoming, upload) {
        incoming := Delete(incoming, upload);
        return Refused;
      }
      RenamedKeeps(Model(), upload, claim.dir, at.touch, "");
      trees, incoming := Put(trees, claim.dir, Tree(at.touch, Get(incoming, upload).value.files)),
                         Delete(incoming, upload);
      Prune(used, at.last);
      return Committed(true);
    }

    method Prune(used: set<string>, now: int)
      requires Valid(Model())
      modifies this
      ensures Model() == Pruned(cfg, old(Model()), used, now) && Valid(Model())
    {
      hide Unique, EvictCount, Evicted, Where, Bytes, SortedByAge;
      AgedGet(cfg, Model(), used, now, "");
      PruneSpares(cfg, Model(), used, now, "");
      trees := Where(trees, (name, t) => !TooOld(cfg, used, now, name, t));
      incoming := Where(incoming, (name, t: Tree) => now - t.mtime <= INCOMING_MAX_AGE);
      ghost var aged := Model();
      assert aged == Aged(cfg, old(Model()), used, now);
      var over := Bytes(trees) + Bytes(incoming) - cfg.budget;
      if over > 0 {
        EvictLru(Lru(trees, used), over);
      } else {
        ghost var lru := Lru(aged.trees, used);
        NothingToEvict(aged.trees, lru, over);
      }
    }

    /** The loop over the least recently touched trees. */
    method EvictLru(lru: Trees, excess: int)
      modifies `trees
      ensures trees == Evicted(old(trees), lru[..EvictCount(lru, excess)])
    {
      var i, over := 0, excess;
      while i < |lru| && over > 0
        invariant 0 <= i <= |lru|
        invariant EvictCount(lru, excess) == i + EvictCount(lru[i..], over)
        invariant Evicted(trees, lru[i..][..EvictCount(lru[i..], over)])
                  == Evicted(old(trees), lru[..EvictCount(lru, excess)])
      {
        EvictNext(trees, lru[i..], over);
        assert lru[i..][1..] == lru[i + 1..] && lru[i..][0] == lru[i];
        over := over - TreeBytes(lru[i].1.files);
        trees := Delete(trees, lru[i].0);
        i := i + 1;
      }
      assert lru[i..][..EvictCount(lru[i..], over)] == [];
    }
  }

  lemma NothingToEvict(trees: Trees, lru: Trees, over: int)
    requires over <= 0
    ensures Evicted(trees, lru[..EvictCount(lru, over)]) == trees
  {
    assert lru[..0] == [];
  }

  lemma EvictNext(trees: Trees, lru: Trees, over: int)
    requires lru != [] && over > 0
    ensures
      var left := over - TreeBytes(lru[0].1.files);
      && EvictCount(lru, over) == 1 + EvictCount(lru[1..], left)
      && Evicted(trees, lru[..EvictCount(lru, over)])
         == Evicted(Delete(trees, lru[0].0), lru[1..][..EvictCount(lru[1..], left)])
  {
    var n := EvictCount(lru, over);
    assert lru[..n][1..] == lru[1..][..n - 1] && lru[..n][0] == lru[0];
  }
}
