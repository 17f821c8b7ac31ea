/**
 * The tail of a text, cut on a character boundary (`utf8Tail`, src/CodexRawLog.ts:17-22), and what it keeps when a
 * text arrives piece by piece. Texts are their UTF-8 bytes.
 */
module Utf8Tails {
  import opened Common

  /** `(b & 0xc0) === 0x80`: the top two bits are 10. */
  predicate IsContinuation(b: byte) {
    0x80 <= b < 0xc0
  }

  /** The first character boundary at or after `start`. */
  function Boundary(text: bytes, start: nat): (r: nat)
    requires start <= |text|
    ensures start <= r <= |text|
    ensures r < |text| ==> !IsContinuation(text[r])
    ensures forall i | start <= i < r :: IsContinuation(text[i])
    decreases |text| - start
  {
    if start < |text| && IsContinuation(text[start]) then Boundary(text, start + 1) else start
  }

  /** Where the tail starts. */
  function Cut(text: bytes, limit: nat): (r: nat)
    ensures r <= |text|
  {
    Boundary(text, Max(0, |text| - limit))
  }

  function Utf8Tail(text: bytes, limit: nat): bytes {
    text[Cut(text, limit)..]
  }

  method TailOf(text: bytes, limit: nat) returns (tail: bytes)
    ensures tail == Utf8Tail(text, limit)
  {
    var start: nat := Max(0, |text| - limit);
    while start < |text| && IsContinuation(text[start])
      invariant start <= |text|
      invariant Boundary(text, Max(0, |text| - limit)) == Boundary(text, start)
    {
      start := start + 1;
    }
    tail := text[start..];
  }

  /** The length of the well-formed character `s` starts with, 0 when there is none (section 4 of RFC 3629). */
  function CharLength(s: bytes): (n: nat)
    ensures n <= |s| && n <= 4
  {
    if s == [] then 0
    else if s[0] <= 0x7f then 1
    else if 0xc2 <= s[0] <= 0xdf then
      if |s| >= 2 && IsContinuation(s[1]) then 2 else 0
    else if 0xe0 <= s[0] <= 0xef then
      if |s| >= 3 && IsContinuation(s[1]) && IsContinuation(s[2])
         && (s[0] == 0xe0 ==> s[1] >= 0xa0) && (s[0] == 0xed ==> s[1] <= 0x9f) then 3 else 0
    else if 0xf0 <= s[0] <= 0xf4 then
      if |s| >= 4 && IsContinuation(s[1]) && IsContinuation(s[2]) && IsContinuation(s[3])
         && (s[0] == 0xf0 ==> s[1] >= 0x90) && (s[0] == 0xf4 ==> s[1] <= 0x8f) then 4 else 0
    else 0
  }

  ghost predicate WellFormed(s: bytes)
    decreases |s|
  {
    s == [] || (CharLength(s) > 0 && WellFormed(s[CharLength(s)..]))
  }

  lemma CharShape(s: bytes)
    requires CharLength(s) > 0
    ensures !IsContinuation(s[0]) && forall i | 1 <= i < CharLength(s) :: IsContinuation(s[i])
  {
  }

  lemma WellFormedStart(s: bytes)
    requires WellFormed(s) && s != []
    ensures !IsContinuation(s[0])
  {
    CharShape(s);
  }

  lemma {:induction false} BoundaryShift(s: bytes, n: nat, start: nat)
    requires n <= start <= |s|
    ensures Boundary(s, start) == n + Boundary(s[n..], start - n)
    decreases |s| - start
  {
    if start < |s| && IsContinuation(s[start]) {
      BoundaryShift(s, n, start + 1);
    }
  }

  lemma {:induction false} BoundarySkips(s: bytes, start: nat, r: nat)
    requires start <= r <= |s| && (forall i | start <= i < r :: IsContinuation(s[i]))
    ensures Boundary(s, start) == Boundary(s, r)
    decreases r - start
  {
    if start < r {
      BoundarySkips(s, start + 1, r);
    }
  }

  /** In a well-formed text a boundary is at most three bytes away, and the text behind it is well-formed. */
  lemma {:induction false} BoundaryNear(s: bytes, start: nat)
    requires WellFormed(s) && start <= |s|
    ensures Boundary(s, start) <= start + 3 && WellFormed(s[Boundary(s, start)..])
    decreases |s|
  {
    if s == [] || start == 0 {
      if s != [] {
        WellFormedStart(s);
      }
      assert s[0..] == s;
    } else {
      var n := CharLength(s);
      CharShape(s);
      if start >= n {
        BoundaryNear(s[n..], start - n);
        BoundaryShift(s, n, start);
        assert s[n..][Boundary(s[n..], start - n)..] == s[Boundary(s, start)..];
      } else {
        BoundarySkips(s, start, n);
        if n < |s| {
          WellFormedStart(s[n..]);
          assert s[n..][0] == s[n];
        }
      }
    }
  }

  /** The tail is well-formed, at most the limit long, and at most three bytes shorter than it could be. */
  lemma TailIsTight(text: bytes, limit: nat)
    requires WellFormed(text)
    ensures
      var tail := Utf8Tail(text, limit);
      && WellFormed(tail) && |tail| <= limit && |tail| >= Min(|text|, limit) - 3
      && tail == text[|text| - |tail|..] && (|text| <= limit ==> tail == text)
  {
    BoundaryNear(text, Max(0, |text| - limit));
    if |text| <= limit && text != [] {
      WellFormedStart(text);
    }
  }

  /** Whole characters appended to a text add no boundary inside it. */
  lemma {:induction false} BoundaryInPrefix(p: bytes, d: bytes, start: nat)
    requires start <= |p| && (d != [] ==> !IsContinuation(d[0]))
    ensures Boundary(p + d, start) == Boundary(p, start)
    decreases |p| - start
  {
    if start < |p| && IsContinuation(p[start]) {
      BoundaryInPrefix(p, d, start + 1);
    }
  }

  /** Where the tail of what was kept (from the boundary `b` on) starts, in the whole text. */
  lemma TailPosition(s: bytes, start: nat, b: nat, limit: nat)
    requires start <= Max(0, |s| - limit) && start <= b <= |s|
    requires (forall i | start <= i < b :: IsContinuation(s[i])) && (b < |s| ==> !IsContinuation(s[b]))
    ensures b + Cut(s[b..], limit) == Cut(s, limit)
  {
    var from := Max(0, |s| - limit);
    if from <= b {
      BoundarySkips(s, from, b);
    }
    BoundaryShift(s, b, Max(b, from));
  }

  /** One delta: the tail of (the tail so far, then the delta) is the tail of everything. */
  lemma TailStep(p: bytes, d: bytes, limit: nat)
    requires d != [] ==> !IsContinuation(d[0])
    ensures Utf8Tail(Utf8Tail(p, limit) + d, limit) == Utf8Tail(p + d, limit)
  {
    hide Boundary;
    var start, s := Max(0, |p| - limit), p + d;
    var b := Boundary(p, start);
    assert b < |s| ==> !IsContinuation(s[b]) by {
      assert b < |p| ==> s[b] == p[b];
      assert b == |p| && d != [] ==> s[b] == d[0];
    }
    assert forall i | start <= i < b :: s[i] == p[i];
    TailPosition(s, start, b, limit);
    DropConcat(p, d, b);
    TailFrom(s, b, limit);
  }

  lemma TailFrom(s: bytes, b: nat, limit: nat)
    requires b <= |s| && b + Cut(s[b..], limit) == Cut(s, limit)
    ensures Utf8Tail(s[b..], limit) == Utf8Tail(s, limit)
  {
    hide Cut;
    DropDrop(s, b, Cut(s[b..], limit));
  }

  lemma DropConcat(p: bytes, d: bytes, b: nat)
    requires b <= |p|
    ensures p[b..] + d == (p + d)[b..]
  {
  }

  lemma DropDrop(s: bytes, b: nat, r: nat)
    requires b <= |s| && r <= |s| - b
    ensures s[b..][r..] == s[b + r..]
  {
  }

  function Concat(ds: seq<bytes>): bytes {
    if ds == [] then [] else Concat(ds[..|ds| - 1]) + ds[|ds| - 1]
  }

  /** The tail kept delta by delta. */
  function Streamed(ds: seq<bytes>, limit: nat): bytes {
    if ds == [] then [] else Utf8Tail(Streamed(ds[..|ds| - 1], limit) + ds[|ds| - 1], limit)
  }

  /** Streaming equals batch: after any deltas the tail kept is the tail of their whole concatenation. */
  lemma {:induction false} StreamingIsBatch(ds: seq<bytes>, limit: nat)
    requires forall d | d in ds :: WellFormed(d)
    ensures Streamed(ds, limit) == Utf8Tail(Concat(ds), limit)
  {
    if ds != [] {
      var n := |ds| - 1;
      assert ds[n] in ds;
      assert forall d | d in ds[..n] :: d in ds;
      StreamingIsBatch(ds[..n], limit);
      if ds[n] != [] {
        WellFormedStart(ds[n]);
      }
      TailStep(Concat(ds[..n]), ds[n], limit);
    }
  }

  lemma {:induction false} WellFormedAppend(a: bytes, b: bytes)
    requires WellFormed(a) && WellFormed(b)
    ensures WellFormed(a + b)
    decreases |a|
  {
    if a == [] {
      assert a + b == b;
    } else {
      var n := CharLength(a);
      CharLengthPrefix(a, b);
      WellFormedAppend(a[n..], b);
      assert (a + b)[n..] == a[n..] + b;
    }
  }

  lemma CharLengthPrefix(a: bytes, b: bytes)
    requires CharLength(a) > 0
    ensures CharLength(a + b) == CharLength(a)
  {
  }

  lemma {:induction false} ConcatWellFormed(ds: seq<bytes>)
    requires forall d | d in ds :: WellFormed(d)
    ensures WellFormed(Concat(ds))
  {
    if ds != [] {
      var n := |ds| - 1;
      assert ds[n] in ds && forall d | d in ds[..n] :: d in ds;
      ConcatWellFormed(ds[..n]);
      WellFormedAppend(Concat(ds[..n]), ds[n]);
    }
  }
}
