/**
 * What `put`, `commit` and `prune` do to the skill store, in full (`daemon/skillStore.ts:82-185`): which files an upload
 * comes to hold and where a frame stops, what a commit leaves behind whatever it answers, and which trees survive.
 */
module SkillStoreMeaning {
  import opened Common
  import opened OrderedMap
  import opened SkillStores

  // ---- staging ------------------------------------------------------------------------------------------------

  function Sizes(frame: Frame): nat {
    if frame == [] then 0 else |frame[0].1.data| + Sizes(frame[1..])
  }

  ghost function Folds(cfg: Config, frame: Frame): set<Path> {
    set i: nat | i < |frame| :: cfg.fold(frame[i].0)
  }

  /** The file cannot be staged: its name was used, it is too much, something is in its way, or it is there otherwise. */
  ghost predicate Refuses(cfg: Config, files: Files, used: nat, names: set<Path>, p: Path, f: File) {
    || cfg.fold(p) in names
    || used + |f.data| > 20 * 1024 * 1024
    || (exists q | Has(files, q) :: q < p || p < q)
    || (Has(files, p) && Get(files, p).value.data != f.data)
  }

  /** The files are those that were there, as they were, and those sent, as they were sent. */
  ghost predicate Holds(before: Files, sent: Frame, after: Files) {
    && (forall q | Has(before, q) :: Get(after, q) == Get(before, q))
    && (forall i: nat | i < |sent| && !Has(before, sent[i].0) :: Get(after, sent[i].0) == Some(sent[i].1))
    && (forall q | Has(after, q) :: Has(before, q) || exists i: nat | i < |sent| :: sent[i].0 == q)
  }

  /** A file whose first directory, or own name at the top, is new. */
  ghost predicate NewAtTop(files: Files, p: Path)
    requires p != []
  {
    forall q | Has(files, q) && q != [] :: q[0] != p[0]
  }

  lemma {:induction false} InFiles(files: Files, p: Path)
    requires Unique(files)
    ensures Has(files, p) <==> exists i: nat | i < |files| :: files[i].0 == p
  {
    if files != [] {
      InFiles(files[1..], p);
      if i: nat :| i < |files| && files[i].0 == p {
        assert i > 0 ==> files[1..][i - 1].0 == p;
      }
      if j: nat :| j < |files[1..]| && files[1..][j].0 == p {
        assert files[j + 1].0 == p;
      }
    }
  }

  lemma ObstructedIs(files: Files, p: Path)
    requires Unique(files)
    ensures Obstructed(files, p) <==> exists q | Has(files, q) :: q < p || p < q
    ensures p != [] ==> (HasTop(files, p[0]) <==> !NewAtTop(files, p))
  {
    forall q ensures Has(files, q) <==> exists i: nat | i < |files| :: files[i].0 == q {
      InFiles(files, q);
    }
    forall i: nat | i < |files| ensures Has(files, files[i].0) {
      InFiles(files, files[i].0);
    }
  }

  /** One file: staged as sent, or left as it is there; the upload is touched when its top level changes. */
  lemma WriteDoes(stage: Tree, p: Path, f: File, now: int)
    requires p != [] && Unique(stage.files)
    ensures
      var refused := (exists q | Has(stage.files, q) :: q < p || p < q)
                     || (Has(stage.files, p) && Get(stage.files, p).value.data != f.data);
      match WriteStaged(stage, p, f, now)
      case None => refused
      case Some(after) =>
        && !refused && Unique(after.files) && Holds(stage.files, [(p, f)], after.files)
        && after.mtime == (if NewAtTop(stage.files, p) then now else stage.mtime)
        && TreeBytes(after.files) <= TreeBytes(stage.files) + |f.data|
  {
    ObstructedIs(stage.files, p);
    hide Obstructed, HasTop;
    if WriteStaged(stage, p, f, now).Some? {
      WriteKeeps(stage, p, f, now);
      if !Has(stage.files, p) {
        forall q ensures Get(stage.files + [(p, f)], q) == if Has(stage.files, q) then Get(stage.files, q)
                                                          else if q == p then Some(f) else None {
          GetAppend(stage.files, [(p, f)], q);
        }
      }
      assert [(p, f)][0].0 == p;
    }
  }

  lemma HoldsThen(a: Files, first: (Path, File), b: Files, rest: Frame, c: Files)
    requires Holds(a, [first], b) && Holds(b, rest, c) && forall i: nat | i < |rest| :: rest[i].0 != first.0
    ensures Holds(a, [first] + rest, c)
  {
    var all := [first] + rest;
    assert forall i: nat | i < |rest| :: all[i + 1] == rest[i];
    assert [first][0] == first && all[0] == first;
    forall i: nat | i < |all| && !Has(a, all[i].0) ensures Get(c, all[i].0) == Some(all[i].1) {
      if i == 0 {
        assert Has(b, first.0);
      } else {
        assert !Has(b, rest[i - 1].0);
      }
    }
    forall q | Has(c, q) && !Has(a, q) ensures exists i: nat | i < |all| :: all[i].0 == q {
      if Has(b, q) {
        assert all[0].0 == q;
      } else {
        var k: nat :| k < |rest| && rest[k].0 == q;
        assert all[k + 1].0 == q;
      }
    }
  }

  lemma HoldsNone(files: Files)
    ensures Holds(files, [], files)
  {
  }

  /** What the loop comes to after the first `i` files of the frame. */
  function StageAfter(cfg: Config, stage: Tree, used: nat, names: set<Path>, frame: Frame, i: nat, now: int): Tree
    requires FrameOk(frame) && i <= |frame|
  {
    PutFrom(cfg, stage, used, names, frame[..i], now).0
  }

  ghost predicate RefusedAt(cfg: Config, stage: Tree, used: nat, names: set<Path>, frame: Frame, i: nat, now: int)
    requires FrameOk(frame) && i < |frame|
  {
    Refuses(cfg, StageAfter(cfg, stage, used, names, frame, i, now).files, used + Sizes(frame[..i]),
            names + Folds(cfg, frame[..i]), frame[i].0, frame[i].1)
  }

  lemma FoldsFirst(cfg: Config, frame: Frame, i: nat)
    requires 0 < i <= |frame|
    ensures Folds(cfg, frame[..i]) == {cfg.fold(frame[0].0)} + Folds(cfg, frame[1..][..i - 1])
    ensures Sizes(frame[..i]) == |frame[0].1.data| + Sizes(frame[1..][..i - 1])
  {
    var all, rest := frame[..i], frame[1..][..i - 1];
    assert all[0] == frame[0] && all[1..] == rest && forall k: nat | k < |rest| :: all[k + 1] == rest[k];
    forall x ensures x in Folds(cfg, all) <==> x in {cfg.fold(frame[0].0)} + Folds(cfg, rest) {
      if x in Folds(cfg, all) {
        var k: nat :| k < |all| && cfg.fold(all[k].0) == x;
        assert k > 0 ==> rest[k - 1] == all[k];
      }
      if x in Folds(cfg, rest) {
        var k: nat :| k < |rest| && cfg.fold(rest[k].0) == x;
        assert all[k + 1] == rest[k];
      }
    }
  }

  lemma RestOk(frame: Frame)
    requires FrameOk(frame) && frame != []
    ensures FrameOk(frame[1..]) && frame[0].0 != []
  {
  }

  /** One file accepted: what follows is the rest of the frame on what it left. */
  lemma AcceptedFirst(cfg: Config, stage: Tree, used: nat, names: set<Path>, frame: Frame, i: nat, now: int)
    requires FrameOk(frame) && 0 < i <= |frame|
    requires !Refuses(cfg, stage.files, used, names, frame[0].0, frame[0].1) && Unique(stage.files)
    ensures FrameOk(frame[1..]) && frame[0].0 != [] && WriteStaged(stage, frame[0].0, frame[0].1, now).Some?
    ensures
      var next := WriteStaged(stage, frame[0].0, frame[0].1, now).value;
      var seen, more := names + {cfg.fold(frame[0].0)}, used + |frame[0].1.data|;
      && StageAfter(cfg, stage, used, names, frame, i, now) == StageAfter(cfg, next, more, seen, frame[1..], i - 1, now)
      && (i < |frame| ==>
            (RefusedAt(cfg, stage, used, names, frame, i, now)
             <==> RefusedAt(cfg, next, more, seen, frame[1..], i - 1, now)))
  {
    hide WriteStaged, Unique, Sizes, Folds;
    RestOk(frame);
    WriteDoes(stage, frame[0].0, frame[0].1, now);
    assert frame[..i][0] == frame[0] && frame[..i][1..] == frame[1..][..i - 1];
    FoldsFirst(cfg, frame, i);
    assert names + ({cfg.fold(frame[0].0)} + Folds(cfg, frame[1..][..i - 1]))
           == names + {cfg.fold(frame[0].0)} + Folds(cfg, frame[1..][..i - 1]);
  }

  lemma RefusedFirst(cfg: Config, stage: Tree, used: nat, names: set<Path>, frame: Frame, now: int)
    requires FrameOk(frame) && frame != [] && Unique(stage.files)
    ensures RefusedAt(cfg, stage, used, names, frame, 0, now)
            <==> Refuses(cfg, stage.files, used, names, frame[0].0, frame[0].1)
    ensures Refuses(cfg, stage.files, used, names, frame[0].0, frame[0].1) ==>
      PutFrom(cfg, stage, used, names, frame, now) == (stage, false)
  {
    hide WriteStaged, Unique;
    RestOk(frame);
    WriteDoes(stage, frame[0].0, frame[0].1, now);
    assert frame[..0] == [] && names + Folds(cfg, []) == names;
  }

  /**
   * A frame is staged file by file up to the first one refused, and no further: what is then in the upload is what was
   * there, untouched, and the accepted files exactly as they were sent, content and mode; all of them if none is refused.
   */
  lemma {:induction false} PutDoes(cfg: Config, stage: Tree, used: nat, names: set<Path>, frame: Frame, now: int)
    returns (n: nat)
    requires FrameOk(frame) && Unique(stage.files)
    ensures
      var (after, ok) := PutFrom(cfg, stage, used, names, frame, now);
      && n <= |frame| && (ok <==> n == |frame|)
      && after == StageAfter(cfg, stage, used, names, frame, n, now)
      && Holds(stage.files, frame[..n], after.files)
      && (forall i | 0 <= i < n :: !RefusedAt(cfg, stage, used, names, frame, i, now) && cfg.fold(frame[i].0) !in names)
      && (n < |frame| ==> RefusedAt(cfg, stage, used, names, frame, n, now))
    decreases |frame|
  {
    hide WriteStaged, Unique, Refuses, RefusedAt, Holds;
    if frame == [] {
      n := 0;
      HoldsNone(stage.files);
    } else {
      RefusedFirst(cfg, stage, used, names, frame, now);
      if Refuses(cfg, stage.files, used, names, frame[0].0, frame[0].1) {
        n := 0;
        assert frame[..0] == [];
        HoldsNone(stage.files);
        NothingYet(cfg, stage, used, names, frame, now);
      } else {
        var rest, seen, more := frame[1..], names + {cfg.fold(frame[0].0)}, used + |frame[0].1.data|;
        AcceptedFirst(cfg, stage, used, names, frame, 1, now);
        WriteDoes(stage, frame[0].0, frame[0].1, now);
        var next := WriteStaged(stage, frame[0].0, frame[0].1, now).value;
        FirstPut(cfg, stage, used, names, frame, now);
        var m := PutDoes(cfg, next, more, seen, rest, now);
        n := m + 1;
        AcceptedFirst(cfg, stage, used, names, frame, n, now);
        assert frame[..n] == [frame[0]] + rest[..m];
        forall i: nat | i < m ensures rest[..m][i].0 != frame[0].0 {
          assert rest[..m][i] == rest[i] && cfg.fold(rest[i].0) !in seen;
        }
        HoldsThen(stage.files, frame[0], next.files, rest[..m], StageAfter(cfg, next, more, seen, rest, m, now).files);
        forall i | 0 <= i < n
          ensures !RefusedAt(cfg, stage, used, names, frame, i, now) && cfg.fold(frame[i].0) !in names {
          NotRefused(cfg, stage.files, used, names, frame[0].0, frame[0].1);
          if i > 0 {
            AcceptedFirst(cfg, stage, used, names, frame, i, now);
            assert frame[i] == rest[i - 1];
          }
        }
      }
    }
  }

  lemma NotRefused(cfg: Config, files: Files, used: nat, names: set<Path>, p: Path, f: File)
    requires !Refuses(cfg, files, used, names, p, f)
    ensures cfg.fold(p) !in names
  {
  }

  lemma NothingYet(cfg: Config, stage: Tree, used: nat, names: set<Path>, frame: Frame, now: int)
    requires FrameOk(frame)
    ensures StageAfter(cfg, stage, used, names, frame, 0, now) == stage
  {
  }

  lemma FirstPut(cfg: Config, stage: Tree, used: nat, names: set<Path>, frame: Frame, now: int)
    requires FrameOk(frame) && frame != [] && Unique(stage.files)
    requires !Refuses(cfg, stage.files, used, names, frame[0].0, frame[0].1)
    ensures FrameOk(frame[1..]) && frame[0].0 != [] && WriteStaged(stage, frame[0].0, frame[0].1, now).Some?
    ensures PutFrom(cfg, stage, used, names, frame, now)
         == PutFrom(cfg, WriteStaged(stage, frame[0].0, frame[0].1, now).value, used + |frame[0].1.data|,
                    names + {cfg.fold(frame[0].0)}, frame[1..], now)
  {
    hide WriteStaged, Unique;
    RestOk(frame);
    WriteDoes(stage, frame[0].0, frame[0].1, now);
  }

  /** A chunk of at most two thousand files, none deeper than twelve directories, joins its upload; no other moves. */
  lemma StageDoes(cfg: Config, s: Store, upload: string, frame: Frame, now: int, other: string)
    requires Valid(s)
    ensures
      var (after, ok) := Staged(cfg, s, upload, frame, now);
      var good := |frame| <= 2000 && forall i | 0 <= i < |frame| :: 0 < |frame[i].0| <= 13;
      var stage := match Get(s.incoming, upload) case Some(t) => t case None => Tree(now, []);
      && (good <==> FrameOk(frame)) && after.trees == s.trees
      && (!good ==> !ok && after == s)
      && (good ==>
            && Get(after.incoming, upload) == Some(PutFrom(cfg, stage, TreeBytes(stage.files), {}, frame, now).0)
            && ok == PutFrom(cfg, stage, TreeBytes(stage.files), {}, frame, now).1
            && (other != upload ==> Get(after.incoming, other) == Get(s.incoming, other)))
  {
    hide PutFrom;
    if FrameOk(frame) {
      var stage := match Get(s.incoming, upload) case Some(t) => t case None => Tree(now, []);
      var put := PutFrom(cfg, stage, TreeBytes(stage.files), {}, frame, now).0;
      GetPut(s.incoming, upload, put, other);
      GetPut(s.incoming, upload, put, upload);
    }
  }

  // ---- pruning ------------------------------------------------------------------------------------------------

  const DAY: nat := 86400000

  /** A tree named by a live session, or touched within the age. */
  predicate Wanted(cfg: Config, used: set<string>, now: int, name: string, t: Tree) {
    name in used || now - t.mtime <= cfg.pruneAge
  }

  /** What is left once trees and uploads are gone for their age. */
  function AgedBytes(cfg: Config, s: Store, used: set<string>, now: int): nat {
    Bytes(Where(s.trees, (name, t) => Wanted(cfg, used, now, name, t)))
    + Bytes(Where(s.incoming, (name, t: Tree) => now - t.mtime <= DAY))
  }

  lemma {:induction false} SameWhere<K, V>(m: Pairs<K, V>, p: (K, V) -> bool, q: (K, V) -> bool)
    requires forall kv | kv in m :: p(kv.0, kv.1) <==> q(kv.0, kv.1)
    ensures Where(m, p) == Where(m, q)
    decreases |m|
  {
    if m != [] {
      assert m[0] in m && forall kv | kv in m[1..] :: kv in m;
      SameWhere(m[1..], p, q);
    }
  }

  /**
   * What pruning leaves, tree by tree and upload by upload: an upload exactly when it was touched within a day; a tree in
   * use always; an old unused tree never; and when that is within the budget, every other tree. What stays is unchanged.
   */
  lemma PruneDoes(cfg: Config, s: Store, used: set<string>, now: int, k: string)
    requires Valid(s)
    ensures
      var after := Pruned(cfg, s, used, now);
      && Get(after.incoming, k) == (match Get(s.incoming, k)
                                    case Some(t) => if now - t.mtime <= DAY then Some(t) else None
                                    case None => None)
      && (Has(after.trees, k) ==> Get(after.trees, k) == Get(s.trees, k)
                                  && Wanted(cfg, used, now, k, Get(s.trees, k).value))
      && (Has(s.trees, k) && k in used ==> Has(after.trees, k))
      && ((AgedBytes(cfg, s, used, now) <= cfg.budget && Has(s.trees, k)
           && Wanted(cfg, used, now, k, Get(s.trees, k).value)) ==> Has(after.trees, k))
      && (TotalBytes(after) > cfg.budget ==> (Has(after.trees, k) ==> k in used))
  {
    hide Unique, TotalBytes;
    PruneSpares(cfg, s, used, now, k);
    PruneEnds(cfg, s, used, now);
    PrunedGet(cfg, s, used, now, k);
    AgedGet(cfg, s, used, now, k);
    AgedTotal(cfg, s, used, now);
  }

  lemma AgedTotal(cfg: Config, s: Store, used: set<string>, now: int)
    ensures TotalBytes(Aged(cfg, s, used, now)) == AgedBytes(cfg, s, used, now)
  {
    SameWhere(s.trees, (name, t) => !TooOld(cfg, used, now, name, t), (name, t) => Wanted(cfg, used, now, name, t));
    SameWhere(s.incoming, (name, t: Tree) => now - t.mtime <= INCOMING_MAX_AGE, (name, t: Tree) => now - t.mtime <= DAY);
  }

  // ---- committing ---------------------------------------------------------------------------------------------

  /** The upload is what was claimed, within the limits: 2000 files and 20 MiB, no two names alike but for case. */
  ghost predicate AsClaimed(cfg: Config, files: Files, claim: Claim) {
    && (forall i, j | 0 <= i < j < |files| :: cfg.fold(files[i].0) != cfg.fold(files[j].0))
    && |files| == claim.files <= 2000 && TreeBytes(files) == claim.bytes <= 20 * 1024 * 1024
    && cfg.hash(files) == claim.hash
  }

  /** The upload is gone, and nothing else changed. */
  ghost predicate OnlyDiscards(s: Store, after: Store, upload: string) {
    && after.trees == s.trees && Unique(after.incoming)
    && forall u :: Get(after.incoming, u) == if u == upload then None else Get(s.incoming, u)
  }

  /** A tree already there is touched, and no tree changes otherwise. */
  ghost predicate Touches(s: Store, after: Store, dir: string, now: int) {
    forall k :: Get(after.trees, k)
             == match Get(s.trees, k) case Some(t) => Some(if k == dir then t.(mtime := now) else t) case None => None
  }

  /**
   * What a commit does when it creates nothing: nothing at all for a name that is not of the hash, or an upload that is
   * not there; a tree of that name is touched and the upload dropped; an upload that is not as claimed is dropped; so is
   * one there is no room for, once room was made by pruning.
   */
  lemma CommitDoes(cfg: Config, s: Store, used: set<string>, upload: string, claim: Claim, at: Times)
    requires Valid(s)
    ensures
      var (after, reply) := CommittedTo(cfg, s, used, upload, claim, at);
      var there := Get(s.incoming, upload);
      if !cfg.named(claim.dir, claim.hash) then reply == Refused && after == s
      else if Has(s.trees, claim.dir) then
        && reply == Committed(false) && Touches(s, after, claim.dir, at.touch)
        && forall u :: Get(after.incoming, u) == if u == upload then None else Get(s.incoming, u)
      else if there.None? then reply == Refused && after == s
      else if !AsClaimed(cfg, there.value.files, claim) then reply == Refused && OnlyDiscards(s, after, upload)
      else if Bytes(s.trees) + Bytes(s.incoming) <= cfg.budget then reply == Committed(true)
      else reply != Committed(false) && (reply == Refused ==> OnlyDiscards(Pruned(cfg, s, used, at.room), after, upload))
  {
    hide Pruned, Unique;
    DiscardDoes(s, upload);
    if Has(s.trees, claim.dir) {
      forall k ensures Get(Touched(s.trees, claim.dir, at.touch), k)
                    == match Get(s.trees, k)
                       case Some(t) => Some(if k == claim.dir then t.(mtime := at.touch) else t) case None => None {
        TouchedGet(s.trees, claim.dir, at.touch, k);
      }
    } else if Has(s.incoming, upload) {
      PruneSpares(cfg, s, used, at.room, upload);
      DiscardDoes(Pruned(cfg, s, used, at.room), upload);
    }
  }

  lemma DiscardDoes(s: Store, upload: string)
    requires Valid(s)
    ensures OnlyDiscards(s, Discarded(s, upload), upload)
  {
    DeleteUnique(s.incoming, upload);
    forall u ensures Get(Delete(s.incoming, upload), u) == if u == upload then None else Get(s.incoming, u) {
      GetDelete(s.incoming, upload, u);
    }
  }
}
