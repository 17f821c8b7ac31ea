/**
 * The POSIX path functions the plugin carries for mobile (`scripts/mobile-node-shims.js`): splitting, normalizing,
 * resolving, joining and relating paths, for all strings.
 */
module Paths {

  const SLASH: char := '/'

  // ---- split and join -----------------------------------------------------------------------------------------

  /** `split('/')`: always at least one part. */
  function Split(s: string): (parts: seq<string>)
    ensures |parts| > 0
  {
    if s == "" then [""]
    else if s[0] == SLASH then [""] + Split(s[1..])
    else Prepend(s[0], Split(s[1..]))
  }

  function Prepend(c: char, parts: seq<string>): (r: seq<string>)
    requires |parts| > 0
    ensures |r| == |parts|
  {
    [[c] + parts[0]] + parts[1..]
  }

  lemma PrependAppend(c: char, a: seq<string>, b: seq<string>)
    requires |a| > 0
    ensures Prepend(c, a + b) == Prepend(c, a) + b
  {
  }

  function Join(parts: seq<string>): string {
    if parts == [] then ""
    else if |parts| == 1 then parts[0]
    else parts[0] + [SLASH] + Join(parts[1..])
  }

  ghost predicate NoSlash(parts: seq<string>) {
    forall p | p in parts :: SLASH !in p
  }

  lemma {:induction false} SplitNoSlash(s: string)
    ensures NoSlash(Split(s))
  {
    if s != "" {
      SplitNoSlash(s[1..]);
      var rest := Split(s[1..]);
      assert rest[0] in rest;
      assert forall p | p in rest[1..] :: p in rest;
    }
  }

  lemma {:induction false} SplitPlain(s: string)
    requires SLASH !in s
    ensures Split(s) == [s]
  {
    if s != "" {
      SplitPlain(s[1..]);
      assert [s[0]] + s[1..] == s;
    }
  }

  /** Splitting around a slash splits each side on its own. */
  lemma {:induction false} SplitConcat(a: string, b: string)
    ensures Split(a + [SLASH] + b) == Split(a) + Split(b)
  {
    var s := a + [SLASH] + b;
    if a == "" {
      assert s[1..] == b;
    } else {
      assert s[1..] == a[1..] + [SLASH] + b;
      SplitConcat(a[1..], b);
      if a[0] == SLASH {
        assert [""] + (Split(a[1..]) + Split(b)) == [""] + Split(a[1..]) + Split(b);
      } else {
        PrependAppend(a[0], Split(a[1..]), Split(b));
      }
    }
  }

  lemma {:induction false} SplitJoin(parts: seq<string>)
    requires parts != [] && NoSlash(parts)
    ensures Split(Join(parts)) == parts
  {
    assert parts[0] in parts;
    SplitPlain(parts[0]);
    if |parts| > 1 {
      assert forall p | p in parts[1..] :: p in parts;
      SplitJoin(parts[1..]);
      SplitConcat(parts[0], Join(parts[1..]));
    }
  }

  // ---- normalizing parts --------------------------------------------------------------------------------------

  const UP: string := ".."

  /** One turn of `normalizeParts`. */
  function Step(out: seq<string>, p: string, abs: bool): seq<string> {
    if p == "" || p == "." then out
    else if p != UP then out + [p]
    else if out != [] && out[|out| - 1] != UP then out[..|out| - 1]
    else if abs then out
    else out + [p]
  }

  function NormalFrom(out: seq<string>, parts: seq<string>, abs: bool): seq<string>
    decreases |parts|
  {
    if parts == [] then out else NormalFrom(Step(out, parts[0], abs), parts[1..], abs)
  }

  method NormalizeParts(parts: seq<string>, abs: bool) returns (out: seq<string>)
    ensures out == NormalFrom([], parts, abs)
  {
    out := [];
    var i := 0;
    while i < |parts|
      invariant 0 <= i <= |parts|
      invariant NormalFrom([], parts, abs) == NormalFrom(out, parts[i..], abs)
    {
      var p := parts[i];
      assert parts[i..][1..] == parts[i + 1..];
      i := i + 1;
      if p == "" || p == "." {
        continue;
      }
      if p == UP {
        if |out| > 0 && out[|out| - 1] != UP {
          out := out[..|out| - 1];
        } else if !abs {
          out := out + [UP];
        }
      } else {
        out := out + [p];
      }
    }
  }

  lemma {:induction false} NormalFromAppend(out: seq<string>, a: seq<string>, b: seq<string>, abs: bool)
    ensures NormalFrom(out, a + b, abs) == NormalFrom(NormalFrom(out, a, abs), b, abs)
    decreases |a|
  {
    if a == [] {
      assert a + b == b;
    } else {
      assert (a + b)[1..] == a[1..] + b;
      NormalFromAppend(Step(out, a[0], abs), a[1..], b, abs);
    }
  }

  lemma NormalFromSnoc(out: seq<string>, a: seq<string>, p: string, abs: bool)
    ensures NormalFrom(out, a + [p], abs) == Step(NormalFrom(out, a, abs), p, abs)
  {
    NormalFromAppend(out, a, [p], abs);
    assert [p][1..] == [];
  }

  /** No part is empty, `.` or holds a slash. */
  ghost predicate Plain(parts: seq<string>) {
    forall p | p in parts :: p != "" && p != "." && SLASH !in p
  }

  /** Plain, and no part climbs. */
  ghost predicate Proper(parts: seq<string>) {
    Plain(parts) && UP !in parts
  }

  lemma {:induction false} NormalIsPlain(out: seq<string>, parts: seq<string>, abs: bool)
    requires Plain(out) && NoSlash(parts)
    ensures Plain(NormalFrom(out, parts, abs))
    ensures abs && UP !in out ==> UP !in NormalFrom(out, parts, abs)
    decreases |parts|
  {
    if parts != [] {
      assert parts[0] in parts;
      assert forall p | p in parts[1..] :: p in parts;
      NormalIsPlain(Step(out, parts[0], abs), parts[1..], abs);
    }
  }

  /** Proper parts are pushed as they are. */
  lemma {:induction false} ProperPushes(out: seq<string>, parts: seq<string>, abs: bool)
    requires Proper(parts)
    ensures NormalFrom(out, parts, abs) == out + parts
    decreases |parts|
  {
    if parts == [] {
      assert out + parts == out;
    } else {
      assert parts[0] in parts;
      assert forall p | p in parts[1..] :: p in parts;
      ProperPushes(out + [parts[0]], parts[1..], abs);
      assert out + [parts[0]] + parts[1..] == out + parts;
    }
  }

  /**
   * Normalizing a relative piece first never changes where it leads: whatever it is appended to, the result is that
   * of the piece as written.
   */
  lemma {:induction false} NormalizePieceFirst(base: seq<string>, parts: seq<string>, abs: bool)
    ensures NormalFrom(base, NormalFrom([], parts, false), abs) == NormalFrom(base, parts, abs)
    decreases |parts|
  {
    if parts != [] {
      var n := |parts| - 1;
      var before, p := parts[..n], parts[n];
      assert parts == before + [p];
      NormalizePieceFirst(base, before, abs);
      NormalFromSnoc(base, before, p, abs);
      NormalFromSnoc([], before, p, false);
      NoDots([], before);
      StepPieceFirst(base, NormalFrom([], before, false), p, abs);
    }
  }

  lemma StepPieceFirst(base: seq<string>, r: seq<string>, p: string, abs: bool)
    requires forall x | x in r :: x != "" && x != "."
    ensures NormalFrom(base, Step(r, p, false), abs) == Step(NormalFrom(base, r, abs), p, abs)
  {
    if p == UP && r != [] && r[|r| - 1] != UP {
      var x := r[|r| - 1];
      assert r == r[..|r| - 1] + [x] && x in r;
      NormalFromSnoc(base, r[..|r| - 1], x, abs);
    } else if p != "" && p != "." {
      NormalFromSnoc(base, r, p, abs);
    }
  }

  lemma {:induction false} NoDots(out: seq<string>, parts: seq<string>)
    requires forall x | x in out :: x != "" && x != "."
    ensures forall x | x in NormalFrom(out, parts, false) :: x != "" && x != "."
    decreases |parts|
  {
    if parts != [] {
      NoDots(Step(out, parts[0], false), parts[1..]);
    }
  }

  function Ups(k: nat): seq<string> {
    if k == 0 then [] else [UP] + Ups(k - 1)
  }

  /** Climbing from proper parts down to the first `n` of them. */
  lemma {:induction false} UpsClimb(out: seq<string>, n: nat)
    requires UP !in out && n <= |out|
    ensures NormalFrom(out, Ups(|out| - n), true) == out[..n]
    decreases |out|
  {
    if n == |out| {
      assert out[..n] == out;
    } else {
      var shorter := out[..|out| - 1];
      assert out[|out| - 1] in out;
      assert UP !in shorter by {
        assert forall p | p in shorter :: p in out;
      }
      assert Ups(|out| - n)[1..] == Ups(|shorter| - n);
      assert Step(out, UP, true) == shorter;
      UpsClimb(shorter, n);
      assert shorter[..n] == out[..n];
    }
  }

  // ---- the path functions -------------------------------------------------------------------------------------

  predicate IsAbsolute(p: string) {
    p != "" && p[0] == SLASH
  }

  predicate EndsInSlash(p: string) {
    p != "" && p[|p| - 1] == SLASH
  }

  function Normalize(p: string): string {
    var abs := IsAbsolute(p);
    var s := Join(NormalFrom([], Split(p), abs));
    var t := if s == "" && !abs then "." else s;
    var u := if t != "" && EndsInSlash(p) then t + [SLASH] else t;
    if abs then [SLASH] + u else u
  }

  function NonEmpty(args: seq<string>): seq<string> {
    if args == [] then [] else (if args[0] != "" then [args[0]] else []) + NonEmpty(args[1..])
  }

  function JoinPaths(args: seq<string>): string {
    var a := Join(NonEmpty(args));
    if a == "" then "." else Normalize(a)
  }

  /** `resolve` before normalizing: arguments from the right until the path is absolute. */
  function Gathered(args: seq<string>, r: string): string
    decreases |args|
  {
    if args == [] || IsAbsolute(r) then r else
      var a := args[|args| - 1];
      Gathered(args[..|args| - 1], if a == "" then r else if r == "" then a else a + [SLASH] + r)
  }

  function Rooted(r: string): string {
    if IsAbsolute(r) then r else [SLASH] + r
  }

  function Resolve(args: seq<string>): string {
    [SLASH] + Join(NormalFrom([], Split(Rooted(Gathered(args, ""))), true))
  }

  method ResolvePaths(args: seq<string>) returns (path: string)
    ensures path == Resolve(args)
  {
    var r := "";
    var i := |args| - 1;
    assert args[..i + 1] == args;
    while i >= 0 && !IsAbsolute(r)
      invariant -1 <= i < |args|
      invariant Gathered(args, "") == Gathered(args[..i + 1], r)
    {
      assert args[..i + 1][..i] == args[..i];
      if args[i] != "" {
        r := if r != "" then args[i] + [SLASH] + r else args[i];
      }
      i := i - 1;
    }
    assert i == -1 ==> args[..i + 1] == [];
    if !IsAbsolute(r) {
      r := [SLASH] + r;
    }
    var parts := NormalizeParts(Split(r), true);
    path := [SLASH] + Join(parts);
  }

  function CommonLength(f: seq<string>, t: seq<string>): (i: nat)
    ensures i <= |f| && i <= |t| && f[..i] == t[..i]
    ensures i < |f| && i < |t| ==> f[i] != t[i]
  {
    if f == [] || t == [] || f[0] != t[0] then 0 else
      var i := CommonLength(f[1..], t[1..]);
      assert f[..i + 1] == [f[0]] + f[1..][..i] && t[..i + 1] == [t[0]] + t[1..][..i];
      1 + i
  }

  /** The parts of `relative(from, to)`: up from where they part, then down. */
  function RelativeParts(f: seq<string>, t: seq<string>): seq<string> {
    var i := CommonLength(f, t);
    Ups(|f| - i) + t[i..]
  }

  function Relative(from: string, to: string): string {
    Join(RelativeParts(NonEmpty(Split(Resolve([from]))), NonEmpty(Split(Resolve([to])))))
  }

  method CountCommon(f: seq<string>, t: seq<string>) returns (i: nat)
    ensures i == CommonLength(f, t)
  {
    i := 0;
    while i < |f| && i < |t| && f[i] == t[i]
      invariant 0 <= i <= |f| && i <= |t|
      invariant CommonLength(f, t) == i + CommonLength(f[i..], t[i..])
    {
      assert f[i..][1..] == f[i + 1..] && t[i..][1..] == t[i + 1..];
      i := i + 1;
    }
  }

  method RelativePath(from: string, to: string) returns (path: string)
    ensures path == Relative(from, to)
  {
    var rf := ResolvePaths([from]);
    var rt := ResolvePaths([to]);
    var f, t := NonEmpty(Split(rf)), NonEmpty(Split(rt));
    var i := CountCommon(f, t);
    path := Join(Ups(|f| - i) + t[i..]);
  }

  // ---- what a path stands for ---------------------------------------------------------------------------------

  /** The segments of the absolute path a string stands for. */
  function Segments(p: string): seq<string> {
    NormalFrom([], Split(p), true)
  }

  lemma SegmentsProper(p: string)
    ensures Proper(Segments(p))
  {
    SplitNoSlash(p);
    NormalIsPlain([], Split(p), true);
  }

  lemma RootedSegments(r: string)
    ensures NormalFrom([], Split(Rooted(r)), true) == Segments(r)
  {
    if !IsAbsolute(r) {
      assert ([SLASH] + r)[1..] == r;
      assert ([""] + Split(r))[1..] == Split(r);
    }
  }

  lemma ResolveOne(p: string)
    ensures Resolve([p]) == [SLASH] + Join(Segments(p))
  {
    RootedSegments(p);
    GatheredOne(p);
  }

  lemma GatheredOne(p: string)
    ensures Gathered([p], "") == p
  {
    assert [p][..0] == [];
    assert Gathered([], p) == p;
  }

  lemma NonEmptyKeeps(parts: seq<string>)
    requires forall p | p in parts :: p != ""
    ensures NonEmpty(parts) == parts
  {
    if parts != [] {
      assert parts[0] in parts;
      assert forall p | p in parts[1..] :: p in parts;
      NonEmptyKeeps(parts[1..]);
    }
  }

  /** The segments of a resolved path are read back as they are. */
  lemma ResolvedParts(p: string)
    ensures NonEmpty(Split(Resolve([p]))) == Segments(p)
    ensures Segments(Resolve([p])) == Segments(p)
  {
    var segs := Segments(p);
    var joined := Join(segs);
    var resolved := [SLASH] + joined;
    ResolveOne(p);
    SegmentsProper(p);
    assert resolved[1..] == joined;
    assert Split(resolved) == [""] + Split(joined);
    assert ([""] + Split(joined))[1..] == Split(joined);
    TrailingEmpty([], Split(joined), true);
    if segs == [] {
      assert Split(joined) == [""];
      assert [""][1..] == [];
    } else {
      SplitJoin(segs);
      NonEmptyKeeps(segs);
      ProperPushes([], segs, true);
    }
  }

  /** A resolved path resolves to itself, and has no empty, `.` or `..` segment. */
  lemma ResolveIsFixpoint(p: string)
    ensures Resolve([Resolve([p])]) == Resolve([p])
    ensures Proper(NonEmpty(Split(Resolve([p]))))
    ensures Resolve([p]) == [SLASH] + Join(NonEmpty(Split(Resolve([p]))))
  {
    ResolvedParts(p);
    ResolveOne(p);
    ResolveOne(Resolve([p]));
    SegmentsProper(p);
  }

  /** Resolving a relative path against a base walks from the base's segments. */
  lemma ResolveAgainst(base: string, rel: string)
    requires !IsAbsolute(rel)
    ensures Resolve([base, rel]) == [SLASH] + Join(NormalFrom(Segments(base), Split(rel), true))
  {
    var args := [base, rel];
    var r := if base == "" then rel else if rel == "" then base else base + [SLASH] + rel;
    assert Gathered(args, "") == r by {
      assert args[..1] == [base] && [base][..0] == [];
      assert Gathered(args, "") == Gathered([base], rel);
      assert Gathered([], r) == r;
    }
    RootedSegments(r);
    if base == "" {
      assert Split("") == [""] && [""][1..] == [];
      assert Segments("") == [];
    } else if rel == "" {
      assert Split("") == [""] && [""][1..] == [];
      assert NormalFrom(Segments(base), [""], true) == Segments(base);
    } else {
      SplitConcat(base, rel);
      NormalFromAppend([], Split(base), Split(rel), true);
    }
  }

  // ---- the laws -----------------------------------------------------------------------------------------------

  lemma {:induction false} UpsPlain(k: nat)
    ensures forall p | p in Ups(k) :: p == UP
    ensures |Ups(k)| == k
  {
    if k > 0 {
      UpsPlain(k - 1);
    }
  }

  /** A non-empty join of plain parts starts with the first character of its first part. */
  lemma JoinStart(parts: seq<string>)
    requires parts != [] && parts[0] != ""
    ensures Join(parts) != "" && Join(parts)[0] == parts[0][0]
    ensures Join(parts)[..|parts[0]|] == parts[0]
    ensures |parts| == 1 ==> Join(parts) == parts[0]
    ensures |parts| > 1 ==> |Join(parts)| > |parts[0]| && Join(parts)[|parts[0]|] == SLASH
  {
  }

  lemma RelativePartsPlain(f: seq<string>, t: seq<string>)
    requires Plain(t)
    ensures Plain(RelativeParts(f, t))
  {
    var i := CommonLength(f, t);
    UpsPlain(|f| - i);
    assert forall p | p in t[i..] :: p in t;
  }

  /** Up from one list of proper segments and down again arrives at the other. */
  lemma RelativePartsLead(f: seq<string>, t: seq<string>)
    requires Proper(f) && Proper(t)
    ensures NormalFrom(f, RelativeParts(f, t), true) == t
  {
    hide CommonLength, NormalFrom;
    var i := CommonLength(f, t);
    NormalFromAppend(f, Ups(|f| - i), t[i..], true);
    UpsClimb(f, i);
    ProperSuffix(t, i);
    ProperPushes(f[..i], t[i..], true);
    assert t == t[..i] + t[i..];
  }

  lemma ProperSuffix(t: seq<string>, i: nat)
    requires Proper(t) && i <= |t|
    ensures Proper(t[i..])
  {
    assert forall p | p in t[i..] :: p in t;
  }

  /** The round trip, for all strings: going from `from` along `relative(from, to)` arrives at `to`. */
  lemma RelativeRoundTrip(from: string, to: string)
    ensures Resolve([from, Relative(from, to)]) == Resolve([to])
  {
    var f, t := Segments(from), Segments(to);
    var parts := RelativeParts(f, t);
    ResolvedParts(from);
    ResolvedParts(to);
    SegmentsProper(from);
    SegmentsProper(to);
    RelativePartsPlain(f, t);
    RelativePartsLead(f, t);
    ResolveOne(to);
    if parts == [] {
      assert Split("") == [""] && [""][1..] == [];
      ResolveAgainst(from, "");
    } else {
      assert parts[0] in parts;
      JoinStart(parts);
      SplitJoin(parts);
      ResolveAgainst(from, Join(parts));
    }
  }

  /** Normalizing a path does not change what it resolves to, on its own or against any base. */
  lemma NormalizeKeepsMeaning(base: string, p: string)
    ensures Segments(Normalize(p)) == Segments(p)
    ensures !IsAbsolute(p) ==> Resolve([base, Normalize(p)]) == Resolve([base, p])
  {
    var abs := IsAbsolute(p);
    var out := NormalFrom([], Split(p), abs);
    NormalizedParts(p);
    if !abs {
      NormalizePieceFirst([], Split(p), true);
      NormalizePieceFirst(Segments(base), Split(p), true);
      SkipEmpty([], Normalize(p), out);
      SkipEmpty(Segments(base), Normalize(p), out);
      ResolveAgainst(base, Normalize(p));
      ResolveAgainst(base, p);
    } else {
      SkipEmpty([], Normalize(p), out);
      SegmentsProper(p);
      ProperPushes([], out, true);
    }
  }

  /** The parts of `s` are those of `out`, but for empty and `.` ones. */
  ghost predicate SamePath(s: string, out: seq<string>) {
    forall base, abs :: NormalFrom(base, Split(s), abs) == NormalFrom(base, out, abs)
  }

  lemma SkipEmpty(base: seq<string>, s: string, out: seq<string>)
    requires SamePath(s, out)
    ensures NormalFrom(base, Split(s), true) == NormalFrom(base, out, true)
  {
  }

  lemma {:induction false} TrailingEmpty(base: seq<string>, parts: seq<string>, abs: bool)
    ensures NormalFrom(base, parts + [""], abs) == NormalFrom(base, parts, abs)
    ensures NormalFrom(base, [""] + parts, abs) == NormalFrom(base, parts, abs)
  {
    NormalFromSnoc(base, parts, "", abs);
    assert ([""] + parts)[1..] == parts;
  }

  /** A normalized path has the same root, the same trailing slash unless it is the root, and its normal parts. */
  lemma NormalizedParts(p: string)
    ensures IsAbsolute(Normalize(p)) == IsAbsolute(p)
    ensures SamePath(Normalize(p), NormalFrom([], Split(p), IsAbsolute(p)))
    ensures EndsInSlash(Normalize(p)) == (EndsInSlash(p) || Normalize(p) == [SLASH])
  {
    hide NormalFrom, Split, Join;
    var abs := IsAbsolute(p);
    var out := NormalFrom([], Split(p), abs);
    SplitNoSlash(p);
    NormalIsPlain([], Split(p), abs);
    var s := Join(out);
    var t := if s == "" && !abs then "." else s;
    PlainJoin(out);
    CoreSplits(out, abs);
    TrailSamePath(t, out);
    var u := if t != "" && EndsInSlash(p) then t + [SLASH] else t;
    RootSamePath(u, out);
  }

  lemma TrailSamePath(t: string, out: seq<string>)
    requires SamePath(t, out)
    ensures SamePath(t + [SLASH], out)
  {
    SplitConcat(t, "");
    assert t + [SLASH] + "" == t + [SLASH];
    assert Split("") == [""];
    forall base, flag
      ensures NormalFrom(base, Split(t + [SLASH]), flag) == NormalFrom(base, out, flag)
    {
      TrailingEmpty(base, Split(t), flag);
    }
  }

  lemma RootSamePath(u: string, out: seq<string>)
    requires SamePath(u, out)
    ensures SamePath([SLASH] + u, out)
  {
    assert ([SLASH] + u)[1..] == u;
    assert Split([SLASH] + u) == [""] + Split(u);
    forall base, flag
      ensures NormalFrom(base, Split([SLASH] + u), flag) == NormalFrom(base, out, flag)
    {
      TrailingEmpty(base, Split(u), flag);
    }
  }

  lemma PlainJoin(out: seq<string>)
    requires Plain(out)
    ensures out == [] <==> Join(out) == ""
    ensures !IsAbsolute(Join(out)) && !EndsInSlash(Join(out))
  {
    if out != [] {
      assert out[0] in out;
      JoinStart(out);
      JoinEnd(out);
    }
  }

  lemma {:induction false} JoinEnd(parts: seq<string>)
    requires parts != [] && Plain(parts)
    ensures Join(parts) != "" && !EndsInSlash(Join(parts))
  {
    if |parts| == 1 {
      assert parts[0] in parts;
    } else {
      assert forall p | p in parts[1..] :: p in parts;
      JoinEnd(parts[1..]);
    }
  }

  lemma CoreSplits(out: seq<string>, abs: bool)
    requires Plain(out)
    ensures
      var s := Join(out);
      SamePath(if s == "" && !abs then "." else s, out)
  {
    PlainJoin(out);
    if out == [] {
      assert Split("") == [""] && [""][1..] == [];
      SplitPlain(".");
      assert ["."][1..] == [];
    } else {
      SplitJoin(out);
    }
  }

  lemma NormalIsFixed(parts: seq<string>, abs: bool)
    requires NoSlash(parts)
    ensures NormalFrom([], NormalFrom([], parts, abs), abs) == NormalFrom([], parts, abs)
  {
    if abs {
      NormalIsPlain([], parts, true);
      ProperPushes([], NormalFrom([], parts, true), true);
    } else {
      NormalizePieceFirst([], parts, false);
    }
  }

  /** Climbing parts come first, and an absolute path has none. */
  ghost predicate ClimbsFirst(parts: seq<string>, abs: bool) {
    (forall i, j | 0 <= i < j < |parts| && parts[j] == UP :: parts[i] == UP) && (abs ==> UP !in parts)
  }

  lemma StepClimbsFirst(out: seq<string>, p: string, abs: bool)
    requires ClimbsFirst(out, abs)
    ensures ClimbsFirst(Step(out, p, abs), abs)
  {
    if p == UP && out != [] && out[|out| - 1] == UP {
      assert forall i | 0 <= i < |out| - 1 :: out[i] == UP;
    }
  }

  lemma {:induction false} NormalClimbsFirst(out: seq<string>, parts: seq<string>, abs: bool)
    requires ClimbsFirst(out, abs)
    ensures ClimbsFirst(NormalFrom(out, parts, abs), abs)
    decreases |parts|
  {
    hide Step, ClimbsFirst;
    if parts != [] {
      StepClimbsFirst(out, parts[0], abs);
      NormalClimbsFirst(Step(out, parts[0], abs), parts[1..], abs);
    }
  }

  /**
   * A normalized path is its parts joined: none empty or `.`, climbing ones only in front and only in a relative path; a
   * lone `.` when a relative path has none; behind a slash when it was absolute, and with one behind it when it ended so.
   */
  lemma NormalizeIsPlain(p: string) returns (parts: seq<string>)
    ensures Plain(parts) && ClimbsFirst(parts, IsAbsolute(p))
    ensures
      var body := if parts == [] && !IsAbsolute(p) then "." else Join(parts);
      Normalize(p) == (if IsAbsolute(p) then [SLASH] else "") + body
                      + (if body != "" && EndsInSlash(p) then [SLASH] else "")
  {
    hide NormalFrom, Split, Join;
    parts := NormalFrom([], Split(p), IsAbsolute(p));
    SplitNoSlash(p);
    assert ClimbsFirst([], IsAbsolute(p));
    NormalIsPlain([], Split(p), IsAbsolute(p));
    NormalClimbsFirst([], Split(p), IsAbsolute(p));
    PlainJoin(parts);
  }

  /** Normalizing twice is normalizing once, for all strings. */
  lemma NormalizeIdempotent(p: string)
    ensures Normalize(Normalize(p)) == Normalize(p)
  {
    var abs := IsAbsolute(p);
    var out := NormalFrom([], Split(p), abs);
    var q := Normalize(p);
    SplitNoSlash(p);
    NormalIsPlain([], Split(p), abs);
    NormalIsFixed(Split(p), abs);
    NormalizedParts(p);
    PlainJoin(out);
    assert NormalFrom([], Split(q), abs) == out;
  }

  /** Where one walks along each path in turn. */
  function WalkEach(base: seq<string>, args: seq<string>): seq<string>
    decreases |args|
  {
    if args == [] then base else WalkEach(NormalFrom(base, Split(args[0]), true), args[1..])
  }

  lemma {:induction false} JoinedWalks(base: seq<string>, args: seq<string>)
    ensures NormalFrom(base, Split(Join(NonEmpty(args))), true) == WalkEach(base, args)
    decreases |args|
  {
    if args == [] {
      EmptyWalks(base);
    } else {
      var a, rest := args[0], NonEmpty(args[1..]);
      JoinedWalks(NormalFrom(base, Split(a), true), args[1..]);
      if a == "" {
        EmptyWalks(base);
        assert [] + rest == rest;
      } else if rest == [] {
        EmptyWalks(NormalFrom(base, Split(a), true));
        assert [a] + rest == [a];
      } else {
        assert ([a] + rest)[1..] == rest;
        SplitConcat(a, Join(rest));
        NormalFromAppend(base, Split(a), Split(Join(rest)), true);
      }
    }
  }

  /** Joining walks along each path from where the one before led, whether or not it looks absolute. */
  lemma JoinWalks(args: seq<string>)
    ensures Segments(JoinPaths(args)) == WalkEach([], args)
  {
    var joined := Join(NonEmpty(args));
    JoinedWalks([], args);
    EmptyWalks([]);
    if joined == "" {
      SplitPlain(".");
      assert ["."][1..] == [];
    } else {
      NormalizeKeepsMeaning("", joined);
    }
  }

  lemma EmptyWalks(base: seq<string>)
    ensures NormalFrom(base, Split(""), true) == base
  {
    assert Split("") == [""] && [""][1..] == [];
  }

  // ---- what resolving starts from -----------------------------------------------------------------------------

  /** The text stands for walking along each of the paths. */
  ghost predicate Walks(r: string, args: seq<string>) {
    forall base :: NormalFrom(base, Split(r), true) == WalkEach(base, args)
  }

  /** Every path but the first is relative. */
  ghost predicate RelativeAfterFirst(args: seq<string>) {
    forall i | 0 < i < |args| :: !IsAbsolute(args[i])
  }

  lemma OneMoreWalk(a: string, r: string, args: seq<string>)
    requires Walks(r, args)
    ensures Walks(if a == "" then r else if r == "" then a else a + [SLASH] + r, [a] + args)
  {
    hide Split, NormalFrom;
    assert ([a] + args)[1..] == args;
    forall base
      ensures NormalFrom(base, Split(if a == "" then r else if r == "" then a else a + [SLASH] + r), true)
           == WalkEach(base, [a] + args)
    {
      EmptyWalks(base);
      EmptyWalks(NormalFrom(base, Split(a), true));
      assert NormalFrom(NormalFrom(base, Split(a), true), Split(r), true)
             == WalkEach(NormalFrom(base, Split(a), true), args);
      if a != "" && r != "" {
        SplitConcat(a, r);
        NormalFromAppend(base, Split(a), Split(r), true);
      }
    }
  }

  lemma {:induction false} GatheredWalks(args: seq<string>, r: string, later: seq<string>) returns (k: nat)
    requires Walks(r, later) && RelativeAfterFirst(later) && (IsAbsolute(r) <==> later != [] && IsAbsolute(later[0]))
    ensures k <= |args| && Walks(Gathered(args, r), args[k..] + later) && RelativeAfterFirst(args[k..] + later)
    ensures k > 0 ==> args[k..] + later != [] && IsAbsolute((args[k..] + later)[0])
    decreases |args|
  {
    hide Walks, WalkEach;
    if args == [] || IsAbsolute(r) {
      k := |args|;
      assert args[k..] + later == later;
    } else {
      var n := |args| - 1;
      var a := args[n];
      OneMoreWalk(a, r, later);
      var more := [a] + later;
      assert forall i | 0 < i < |more| :: more[i] == later[i - 1];
      k := GatheredWalks(args[..n], if a == "" then r else if r == "" then a else a + [SLASH] + r, more);
      assert args[..n][k..] + more == args[k..] + later;
    }
  }

  /**
   * Resolving starts at the last absolute argument, or at the root when there is none, and walks along each argument from
   * there on.
   */
  lemma ResolveStartsAtLastAbsolute(args: seq<string>) returns (k: nat)
    ensures k <= |args| && Resolve(args) == [SLASH] + Join(WalkEach([], args[k..]))
    ensures forall i | k < i < |args| :: !IsAbsolute(args[i])
    ensures k > 0 ==> k < |args| && IsAbsolute(args[k])
  {
    hide Split, NormalFrom, Join, Gathered;
    forall base ensures NormalFrom(base, Split(""), true) == WalkEach(base, []) {
      EmptyWalks(base);
    }
    k := GatheredWalks(args, "", []);
    assert args[k..] + [] == args[k..];
    RootedSegments(Gathered(args, ""));
    forall i | k < i < |args| ensures !IsAbsolute(args[i]) {
      assert args[k..][i - k] == args[i];
    }
  }
}
