/**
 * Which workspace a path belongs to (`daemon/sessionPolicy.ts`): containment by relative path, and the read-only
 * decision by the most specific root. `relative` on absolute POSIX paths is the function of module `Paths`.
 */
module Workspaces {
  import opened Paths

  /** `rel.startsWith('..')`. */
  predicate StartsUp(s: string) {
    |s| >= 2 && s[..2] == UP
  }

  predicate IsWithin(root: string, target: string) {
    var rel := Relative(root, target);
    rel == "" || (!StartsUp(rel) && !IsAbsolute(rel))
  }

  /** The root's segments are a prefix of the target's. */
  ghost predicate Contains(root: string, target: string) {
    Segments(root) <= Segments(target)
  }

  // ---- containment --------------------------------------------------------------------------------------------

  lemma RelativeIs(from: string, to: string)
    ensures Relative(from, to) == Join(RelativeParts(Segments(from), Segments(to)))
  {
    ResolvedParts(from);
    ResolvedParts(to);
  }

  /** A join starts with two dots exactly when its first part does. */
  lemma StartsUpFirst(parts: seq<string>)
    requires parts != [] && Plain(parts)
    ensures StartsUp(Join(parts)) <==> StartsUp(parts[0])
    ensures !IsAbsolute(Join(parts)) && Join(parts) != ""
  {
    assert parts[0] in parts;
    JoinStart(parts);
    PlainJoin(parts);
    var joined := Join(parts);
    if |parts[0]| >= 2 {
      assert joined[..2] == joined[..|parts[0]|][..2];
    } else if |parts| > 1 {
      assert |joined| >= 2 && joined[1] == SLASH;
      assert joined[..2][1] == SLASH;
    }
  }

  lemma {:induction false} CommonOfPrefix(f: seq<string>, t: seq<string>)
    requires f <= t
    ensures CommonLength(f, t) == |f|
  {
    if f != [] {
      assert f[1..] <= t[1..];
      CommonOfPrefix(f[1..], t[1..]);
    }
  }

  /** The first step of a relative path: up when the root is not a prefix, else into the target. */
  lemma RelativePartsStart(f: seq<string>, t: seq<string>)
    ensures !(f <= t) ==> RelativeParts(f, t) != [] && RelativeParts(f, t)[0] == UP
    ensures f <= t ==> RelativeParts(f, t) == t[|f|..]
  {
    var i := CommonLength(f, t);
    if f <= t {
      CommonOfPrefix(f, t);
    } else {
      assert i < |f|;
    }
  }

  /**
   * Containment decided exactly: the root's segments are a prefix of the target's and the next segment, if any, does
   * not itself begin with two dots. So being within implies being contained, and a folder whose name begins with
   * `..` is refused although it is inside.
   */
  lemma WithinIff(root: string, target: string)
    ensures IsWithin(root, target) <==>
      Contains(root, target)
      && (|Segments(target)| > |Segments(root)| ==> !StartsUp(Segments(target)[|Segments(root)|]))
  {
    var f, t := Segments(root), Segments(target);
    RelativeIs(root, target);
    RelativePartsStart(f, t);
    SegmentsProper(root);
    SegmentsProper(target);
    RelativePartsPlain(f, t);
    if RelativeParts(f, t) != [] {
      StartsUpFirst(RelativeParts(f, t));
    }
  }

  /** So under any root a folder such as `..notes`, whose name begins with two dots, is inside yet refused. */
  lemma DottedFolderRefused(root: string, name: string)
    requires StartsUp(name) && name != UP && SLASH !in name
    ensures Contains(root, root + [SLASH] + name) && !IsWithin(root, root + [SLASH] + name)
  {
    hide IsWithin, Segments;
    assert Proper([name]);
    ChildSegments(root, name);
    WithinIff(root, root + [SLASH] + name);
  }

  /** A plain name below a path is one more segment. */
  lemma ChildSegments(parent: string, name: string)
    requires Proper([name])
    ensures Segments(parent + [SLASH] + name) == Segments(parent) + [name]
  {
    assert name in [name];
    SplitPlain(name);
    SplitConcat(parent, name);
    NormalFromSnoc([], Split(parent), name, true);
  }

  // ---- roots that contain a path are ordered ------------------------------------------------------------------

  ghost predicate IsResolved(p: string) {
    p == Resolve([p])
  }

  lemma {:induction false} JoinGrows(a: seq<string>, b: seq<string>)
    requires Plain(a + b) && a != []
    ensures |Join(a)| <= |Join(a + b)|
    ensures b != [] ==> |Join(a)| < |Join(a + b)|
  {
    if |a| == 1 {
      assert a + b == [a[0]] + b && (a + b)[1..] == b;
    } else {
      assert (a + b)[1..] == a[1..] + b;
      assert forall p | p in a[1..] + b :: p in a + b;
      JoinGrows(a[1..], b);
    }
  }

  /** Of two resolved paths with nested segments the deeper one is the longer string. */
  lemma DeeperIsLonger(a: string, b: string)
    requires IsResolved(a) && IsResolved(b) && Segments(a) <= Segments(b)
    ensures |a| <= |b| && (|a| == |b| ==> a == b)
  {
    var s, t := Segments(a), Segments(b);
    ResolveOne(a);
    ResolveOne(b);
    SegmentsProper(b);
    var rest := t[|s|..];
    assert t == s + rest;
    if s == [] {
      PlainJoin(t);
      assert |b| == 1 + |Join(t)|;
    } else {
      JoinGrows(s, rest);
      assert rest == [] ==> t == s;
    }
  }

  /** Resolved roots that contain one path: string length orders them as depth does. */
  lemma RootsOrdered(a: string, b: string, target: string)
    requires IsResolved(a) && IsResolved(b) && Contains(a, target) && Contains(b, target)
    ensures |a| <= |b| <==> Segments(a) <= Segments(b)
    ensures |a| == |b| ==> a == b
  {
    var s, t, u := Segments(a), Segments(b), Segments(target);
    if |s| <= |t| {
      assert s == u[..|s|] && t == u[..|t|];
      assert s == t[..|s|];
      DeeperIsLonger(a, b);
    } else {
      assert t == s[..|t|];
      DeeperIsLonger(b, a);
      assert !(s <= t);
    }
  }

  // ---- read-only ----------------------------------------------------------------------------------------------

  datatype Best = NoRoot | Best(depth: nat, readOnly: bool)

  /** What `best` stands for after the read-write roots `rw` and read-only roots `ro` were considered. */
  ghost predicate Considered(path: string, rw: seq<string>, ro: seq<string>, best: Best) {
    match best
    case NoRoot => forall r | r in rw + ro :: !IsWithin(r, path)
    case Best(depth, readOnly) =>
      && (exists r | r in rw + ro :: IsWithin(r, path) && |r| == depth)
      && (forall r | r in rw + ro && IsWithin(r, path) :: |r| <= depth)
      && (readOnly <==> exists r | r in ro :: IsWithin(r, path) && |r| == depth)
  }

  method Consider(path: string, roots: seq<string>, readOnly: bool, start: Best, ghost rw: seq<string>)
    returns (best: Best)
    requires if readOnly then Considered(path, rw, [], start) else start == NoRoot && rw == []
    ensures if readOnly then Considered(path, rw, roots, best) else Considered(path, roots, [], best)
  {
    hide IsWithin, Considered;
    NothingConsidered(path);
    best := start;
    var i := 0;
    while i < |roots|
      invariant 0 <= i <= |roots|
      invariant if readOnly then Considered(path, rw, roots[..i], best) else Considered(path, roots[..i], [], best)
    {
      var root := roots[i];
      ghost var before := best;
      if IsWithin(root, path) {
        var depth := |root|;
        if best.NoRoot? || depth > best.depth || (depth == best.depth && readOnly) {
          best := Best(depth, readOnly);
        }
      }
      assert roots[..i + 1] == roots[..i] + [root];
      if readOnly {
        ConsiderReadOnly(path, rw, roots[..i], root, before, best);
      } else {
        ConsiderReadWrite(path, roots[..i], root, before, best);
      }
      i := i + 1;
    }
    assert roots[..|roots|] == roots;
  }

  lemma NothingConsidered(path: string)
    ensures Considered(path, [], [], NoRoot)
  {
  }

  lemma ConsiderReadWrite(path: string, rw: seq<string>, root: string, before: Best, after: Best)
    requires Considered(path, rw, [], before)
    requires after == if IsWithin(root, path) && (before.NoRoot? || |root| > before.depth)
                      then Best(|root|, false) else before
    ensures Considered(path, rw + [root], [], after)
  {
    assert forall r :: r in rw + [root] + [] <==> r in rw + [] || r == root;
  }

  lemma ConsiderReadOnly(path: string, rw: seq<string>, ro: seq<string>, root: string, before: Best, after: Best)
    requires Considered(path, rw, ro, before)
    requires after == if IsWithin(root, path) && (before.NoRoot? || |root| >= before.depth)
                      then Best(|root|, true) else before
    ensures Considered(path, rw, ro + [root], after)
  {
    hide IsWithin;
    assert forall r :: r in rw + (ro + [root]) <==> r in rw + ro || r == root;
  }

  /** Some read-only root holding the path is at least as long as every read-write root holding it. */
  ghost predicate ReadOnlyWins(path: string, rw: seq<string>, ro: seq<string>) {
    exists r | r in ro :: IsWithin(r, path) && forall w | w in rw && IsWithin(w, path) :: |w| <= |r|
  }

  /** `isReadOnlyPath` over roots already resolved, in two passes over the lists. */
  method IsReadOnlyPath(path: string, workspaces: seq<string>, readOnlyWorkspaces: seq<string>)
    returns (readOnly: bool)
    ensures readOnly <==> ReadOnlyWins(path, workspaces, readOnlyWorkspaces)
  {
    var best := Consider(path, workspaces, false, NoRoot, []);
    best := Consider(path, readOnlyWorkspaces, true, best, workspaces);
    readOnly := if best.NoRoot? then false else best.readOnly;
    BestDecides(path, workspaces, readOnlyWorkspaces, best);
  }

  lemma BestDecides(path: string, rw: seq<string>, ro: seq<string>, best: Best)
    requires Considered(path, rw, ro, best)
    ensures (best.Best? && best.readOnly) <==> ReadOnlyWins(path, rw, ro)
  {
    assert forall r :: r in rw + ro <==> r in rw || r in ro;
    if ReadOnlyWins(path, rw, ro) {
      var r :| r in ro && IsWithin(r, path) && forall w | w in rw && IsWithin(w, path) :: |w| <= |r|;
      assert best.Best?;
      var m :| m in rw + ro && IsWithin(m, path) && |m| == best.depth;
      if m in rw {
        assert |r| == best.depth;
      }
    }
  }

  /** The decision depends only on which roots are listed, not on their order or how often. */
  lemma OrderAndRepeatsDoNotMatter(path: string, rw: seq<string>, ro: seq<string>, rw': seq<string>, ro': seq<string>)
    requires (forall r :: r in rw <==> r in rw') && (forall r :: r in ro <==> r in ro')
    ensures ReadOnlyWins(path, rw, ro) <==> ReadOnlyWins(path, rw', ro')
  {
    if ReadOnlyWins(path, rw, ro) {
      var r :| r in ro && IsWithin(r, path) && forall w | w in rw && IsWithin(w, path) :: |w| <= |r|;
      assert r in ro' && forall w | w in rw' && IsWithin(w, path) :: |w| <= |r|;
    }
    if ReadOnlyWins(path, rw', ro') {
      var r :| r in ro' && IsWithin(r, path) && forall w | w in rw' && IsWithin(w, path) :: |w| <= |r|;
      assert r in ro && forall w | w in rw && IsWithin(w, path) :: |w| <= |r|;
    }
  }

  /**
   * The most specific root wins, ties going to read-only: for resolved roots, comparing lengths is comparing depth,
   * so a path is read-only exactly when a read-only root holds it with no strictly deeper read-write root inside.
   */
  lemma MostSpecificRootWins(path: string, rw: seq<string>, ro: seq<string>)
    requires forall r | r in rw + ro :: IsResolved(r)
    ensures ReadOnlyWins(path, rw, ro) <==>
      exists r | r in ro :: IsWithin(r, path)
        && forall w | w in rw && IsWithin(w, path) :: Segments(w) <= Segments(r)
  {
    forall r, w | r in ro && w in rw && IsWithin(r, path) && IsWithin(w, path)
      ensures |w| <= |r| <==> Segments(w) <= Segments(r)
    {
      assert r in rw + ro && w in rw + ro;
      WithinIff(r, path);
      WithinIff(w, path);
      RootsOrdered(w, r, path);
    }
  }
}
