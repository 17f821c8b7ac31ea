/**
 * Reading the append-only log back (`daemon/diskJournal.ts`, `readEntries`): a byte loop that keeps every
 * record it can trust, skips damaged lines that have a good record behind them, and leaves the rest as a torn
 * tail. JSON is a parameter: any codec whose records contain no newline and decode to what was encoded.
 */
module LogParser {
  import opened Common
  import opened Wire

  const NEWLINE: byte := 0x0a

  /** `decode` answers `None` for a line that is not JSON or not shaped like a record. */
  datatype Codec = Codec(encode: Entry -> bytes, decode: bytes -> Option<Entry>) {
    ghost predicate Valid() {
      forall e: Entry :: decode(encode(e)) == Some(e) && NEWLINE !in encode(e)
    }
  }

  datatype Parsed = Parsed(entries: seq<Entry>, validBytes: nat, skipped: nat)

  // ---- lines ----------------------------------------------------------------------------------------------

  /** Where the first newline is, or the length when there is none. */
  function FirstNewline(raw: bytes): (n: nat)
    ensures n <= |raw|
  {
    if raw == [] || raw[0] == NEWLINE then 0 else 1 + FirstNewline(raw[1..])
  }

  /** The newline-terminated lines of `raw`, without their newlines. */
  function Lines(raw: bytes): seq<bytes>
    decreases |raw|
  {
    var n := FirstNewline(raw);
    if n == |raw| then [] else [raw[..n]] + Lines(raw[n + 1..])
  }

  ghost predicate NewlineFree(ls: seq<bytes>) {
    ls == [] || (NEWLINE !in ls[0] && NewlineFree(ls[1..]))
  }

  function Unlines(ls: seq<bytes>): (raw: bytes)
    ensures |raw| == Size(ls)
  {
    if ls == [] then [] else ls[0] + [NEWLINE] + Unlines(ls[1..])
  }

  /** How many bytes the lines take in the file. */
  function Size(ls: seq<bytes>): nat {
    if ls == [] then 0 else |ls[0]| + 1 + Size(ls[1..])
  }

  /** How many whole lines fit in the first `k` bytes. */
  function WholeLines(ls: seq<bytes>, k: nat): (n: nat)
    ensures n <= |ls|
  {
    if ls == [] || k < |ls[0]| + 1 then 0 else 1 + WholeLines(ls[1..], k - |ls[0]| - 1)
  }

  // ---- which lines are kept -------------------------------------------------------------------------------

  function LastSeq(es: seq<Entry>): nat {
    if es == [] then 0 else es[|es| - 1].seqNo
  }

  /** The record a line holds, if it decodes and moves the sequence forward. */
  function Good(c: Codec, line: bytes, prevSeq: nat): Option<Entry> {
    match c.decode(line)
    case Some(e) => if e.seqNo > prevSeq then Some(e) else None
    case None => None
  }

  function Accepted(c: Codec, ls: seq<bytes>): (es: seq<Entry>)
    ensures |es| <= |ls|
  {
    if ls == [] then [] else
      var before := Accepted(c, ls[..|ls| - 1]);
      match Good(c, ls[|ls| - 1], LastSeq(before))
      case Some(e) => before + [e]
      case None => before
  }

  /** How many lines there are up to and including the last one kept. */
  function UpToLastGood(c: Codec, ls: seq<bytes>): (n: nat)
    ensures |Accepted(c, ls)| <= n <= |ls|
  {
    if ls == [] then 0
    else if Good(c, ls[|ls| - 1], LastSeq(Accepted(c, ls[..|ls| - 1]))).Some? then |ls|
    else UpToLastGood(c, ls[..|ls| - 1])
  }

  /** What reading the whole file yields. */
  function ReadLog(c: Codec, raw: bytes): Parsed {
    var ls := Lines(raw);
    var n := UpToLastGood(c, ls);
    Parsed(Accepted(c, ls), Size(ls[..n]), n - |Accepted(c, ls)|)
  }

  method IndexOfNewline(raw: bytes, from: nat) returns (n: nat)
    requires from <= |raw|
    ensures n == from + FirstNewline(raw[from..])
  {
    n := from;
    while n < |raw| && raw[n] != NEWLINE
      invariant from <= n <= |raw|
      invariant from + FirstNewline(raw[from..]) == n + FirstNewline(raw[n..])
    {
      assert raw[n..][1..] == raw[n + 1..];
      n := n + 1;
    }
  }

  /** The loop's counters after the lines `done`, which end at `offset`. */
  ghost predicate Scanned(c: Codec, raw: bytes, done: seq<bytes>, offset: nat, parsed: Parsed, skippedAfterLastGood: nat) {
    && offset <= |raw| && offset == Size(done)
    && Lines(raw) == done + Lines(raw[offset..])
    && parsed.entries == Accepted(c, done)
    && parsed.validBytes == Size(done[..UpToLastGood(c, done)])
    && parsed.skipped == UpToLastGood(c, done) - |parsed.entries|
    && skippedAfterLastGood == |done| - UpToLastGood(c, done)
  }

  /** The original's loop: one pass over the bytes with five running counters. */
  method ReadEntries(c: Codec, raw: bytes) returns (entries: seq<Entry>, validBytes: nat, skipped: nat)
    ensures Parsed(entries, validBytes, skipped) == ReadLog(c, raw)
  {
    hide ReadLog, Lines, FirstNewline, Scanned, Good;
    entries, validBytes, skipped := [], 0, 0;
    var offset, prevSeq, skippedAfterLastGood := 0, 0, 0;
    ScanStart(c, raw);
    ghost var done: seq<bytes> := [];
    while offset < |raw|
      invariant offset <= |raw|
      invariant Scanned(c, raw, done, offset, Parsed(entries, validBytes, skipped), skippedAfterLastGood)
      invariant prevSeq == LastSeq(entries)
      decreases |raw| - offset
    {
      var nl := IndexOfNewline(raw, offset);
      if nl == |raw| {
        break;
      }
      var line := raw[offset..nl];
      var parsed := Good(c, line, prevSeq);
      ScanLine(c, raw, done, offset, nl, Parsed(entries, validBytes, skipped), skippedAfterLastGood);
      offset := nl + 1;
      done := done + [line];
      if parsed.None? {
        skippedAfterLastGood := skippedAfterLastGood + 1;
      } else {
        skipped := skipped + skippedAfterLastGood;
        skippedAfterLastGood := 0;
        entries := entries + [parsed.value];
        prevSeq := parsed.value.seqNo;
        validBytes := offset;
      }
    }
    ScanEnd(c, raw, done, offset, Parsed(entries, validBytes, skipped), skippedAfterLastGood);
  }

  lemma ScanStart(c: Codec, raw: bytes)
    ensures Scanned(c, raw, [], 0, Parsed([], 0, 0), 0)
  {
    assert raw[0..] == raw && [] + Lines(raw) == Lines(raw);
  }

  lemma ScanLine(c: Codec, raw: bytes, done: seq<bytes>, offset: nat, nl: nat, p: Parsed, after: nat)
    requires Scanned(c, raw, done, offset, p, after)
    requires offset <= nl < |raw| && nl == offset + FirstNewline(raw[offset..])
    ensures
      var line := raw[offset..nl];
      var good := Good(c, line, LastSeq(p.entries));
      if good.None? then Scanned(c, raw, done + [line], nl + 1, p, after + 1)
      else Scanned(c, raw, done + [line], nl + 1, Parsed(p.entries + [good.value], nl + 1, p.skipped + after), 0)
  {
    var line := raw[offset..nl];
    LineAt(raw, offset, nl);
    AcceptSnoc(c, done, line);
    SizeAppend(done, [line]);
    KeptPrefix(c, done, line);
    Associate(done, [line], Lines(raw[nl + 1..]));
  }

  lemma ScanEnd(c: Codec, raw: bytes, done: seq<bytes>, offset: nat, p: Parsed, after: nat)
    requires Scanned(c, raw, done, offset, p, after) && FirstNewline(raw[offset..]) == |raw| - offset
    ensures p == ReadLog(c, raw)
  {
    assert Lines(raw[offset..]) == [];
    assert Lines(raw) == done;
  }

  lemma LineAt(raw: bytes, offset: nat, nl: nat)
    requires offset <= nl < |raw| && nl == offset + FirstNewline(raw[offset..])
    ensures Lines(raw[offset..]) == [raw[offset..nl]] + Lines(raw[nl + 1..])
    ensures Size([raw[offset..nl]]) == nl + 1 - offset
  {
    assert raw[offset..nl] == raw[offset..][..nl - offset];
    assert raw[offset..][nl - offset + 1..] == raw[nl + 1..];
    assert [raw[offset..nl]][1..] == [];
  }

  lemma KeptPrefix(c: Codec, ls: seq<bytes>, line: bytes)
    ensures
      var n, m := UpToLastGood(c, ls), UpToLastGood(c, ls + [line]);
      (ls + [line])[..m] == if Good(c, line, LastSeq(Accepted(c, ls))).Some? then ls + [line] else ls[..n]
  {
    AcceptSnoc(c, ls, line);
  }

  // ---- lines and bytes ------------------------------------------------------------------------------------

  lemma {:induction false} SizeAppend(a: seq<bytes>, b: seq<bytes>)
    ensures Size(a + b) == Size(a) + Size(b)
  {
    if a == [] {
      assert a + b == b;
    } else {
      assert (a + b)[1..] == a[1..] + b;
      SizeAppend(a[1..], b);
    }
  }

  lemma {:induction false} UnlinesAppend(a: seq<bytes>, b: seq<bytes>)
    ensures Unlines(a + b) == Unlines(a) + Unlines(b)
  {
    if a == [] {
      assert a + b == b;
    } else {
      assert (a + b)[1..] == a[1..] + b;
      UnlinesAppend(a[1..], b);
    }
  }

  lemma {:induction false} FirstNewlineIs(line: bytes, rest: bytes)
    requires NEWLINE !in line
    ensures FirstNewline(line + [NEWLINE] + rest) == |line|
  {
    var raw := line + [NEWLINE] + rest;
    if line != [] {
      assert raw[1..] == line[1..] + [NEWLINE] + rest;
      FirstNewlineIs(line[1..], rest);
    }
  }

  lemma {:induction false} NoNewline(raw: bytes)
    requires NEWLINE !in raw
    ensures FirstNewline(raw) == |raw| && Lines(raw) == []
  {
    if raw != [] {
      NoNewline(raw[1..]);
    }
  }

  lemma LinesCons(line: bytes, rest: bytes)
    requires NEWLINE !in line
    ensures Lines(line + [NEWLINE] + rest) == [line] + Lines(rest)
  {
    var raw := line + [NEWLINE] + rest;
    FirstNewlineIs(line, rest);
    assert raw[..|line|] == line;
    assert raw[|line| + 1..] == rest;
  }

  /** Bytes after whole lines split on their own. */
  lemma {:induction false} LinesAfter(ls: seq<bytes>, rest: bytes)
    requires NewlineFree(ls)
    ensures Lines(Unlines(ls) + rest) == ls + Lines(rest)
  {
    hide Lines, FirstNewline;
    if ls == [] {
      assert Unlines(ls) + rest == rest;
      assert ls + Lines(rest) == Lines(rest);
    } else {
      var more := Unlines(ls[1..]) + rest;
      Associate(ls[0] + [NEWLINE], Unlines(ls[1..]), rest);
      LinesCons(ls[0], more);
      LinesAfter(ls[1..], rest);
      assert [ls[0]] + ls[1..] == ls;
      Associate([ls[0]], ls[1..], Lines(rest));
    }
  }

  /** Lines cut at any byte offset: exactly the whole ones survive. */
  lemma {:induction false} LinesOfCut(ls: seq<bytes>, k: nat)
    requires NewlineFree(ls) && k <= Size(ls)
    ensures Lines(Unlines(ls)[..k]) == ls[..WholeLines(ls, k)]
  {
    if ls == [] {
    } else if k < |ls[0]| + 1 {
      var cut := Unlines(ls)[..k];
      assert cut == ls[0][..k];
      NoNewline(cut);
    } else {
      var rest := Unlines(ls[1..])[..k - |ls[0]| - 1];
      CutInside(ls[0] + [NEWLINE], Unlines(ls[1..]), k);
      LinesCons(ls[0], rest);
      LinesOfCut(ls[1..], k - |ls[0]| - 1);
      assert [ls[0]] + ls[1..][..WholeLines(ls, k) - 1] == ls[..WholeLines(ls, k)];
    }
  }

  lemma CutInside(a: bytes, b: bytes, k: nat)
    requires |a| <= k <= |a| + |b|
    ensures (a + b)[..k] == a + b[..k - |a|]
  {
  }

  lemma {:induction false} SplitAtNewline(raw: bytes)
    ensures
      var n := FirstNewline(raw);
      NEWLINE !in raw[..n] && (n < |raw| ==> raw == raw[..n] + [NEWLINE] + raw[n + 1..])
  {
    var n := FirstNewline(raw);
    if raw != [] && raw[0] != NEWLINE {
      SplitAtNewline(raw[1..]);
      assert raw[..n] == [raw[0]] + raw[1..][..n - 1];
      if n < |raw| {
        assert raw[1..] == raw[1..][..n - 1] + [NEWLINE] + raw[1..][n..];
        assert raw[1..][n..] == raw[n + 1..];
      }
    }
  }

  /** A file is its whole lines followed by a piece with no newline. */
  lemma {:induction false} LinesCover(raw: bytes) returns (tail: bytes)
    ensures raw == Unlines(Lines(raw)) + tail && NewlineFree(Lines(raw))
    decreases |raw|
  {
    hide FirstNewline;
    var n := FirstNewline(raw);
    SplitAtNewline(raw);
    if n == |raw| {
      tail := raw;
      assert raw == [] + tail;
    } else {
      var rest := raw[n + 1..];
      tail := LinesCover(rest);
      var ls := Lines(raw);
      assert ls[0] == raw[..n] && ls[1..] == Lines(rest);
      Associate(raw[..n] + [NEWLINE], Unlines(Lines(rest)), tail);
    }
  }

  lemma {:induction false} SizeMonotone(ls: seq<bytes>, n: nat)
    requires n <= |ls|
    ensures Size(ls[..n]) <= Size(ls)
    ensures Size(ls[..n]) == Size(ls) ==> n == |ls|
  {
    assert ls == ls[..n] + ls[n..];
    SizeAppend(ls[..n], ls[n..]);
  }

  // ---- what is accepted -----------------------------------------------------------------------------------

  ghost predicate Increasing(es: seq<Entry>) {
    && (forall i | 0 <= i < |es| :: es[i].seqNo > 0)
    && (forall i, j | 0 <= i < j < |es| :: es[i].seqNo < es[j].seqNo)
  }

  lemma {:induction false} AcceptedIncreasing(c: Codec, ls: seq<bytes>)
    ensures Increasing(Accepted(c, ls))
  {
    if ls != [] {
      AcceptedIncreasing(c, ls[..|ls| - 1]);
    }
  }

  /** Whatever bytes are on disk, the entries read back have strictly increasing, positive sequence numbers. */
  lemma ReadIncreasing(c: Codec, raw: bytes)
    ensures Increasing(ReadLog(c, raw).entries)
  {
    AcceptedIncreasing(c, Lines(raw));
  }

  /** Everything kept comes from the lines up to the last good one. */
  lemma {:induction false} AcceptedUpToLastGood(c: Codec, ls: seq<bytes>)
    ensures Accepted(c, ls[..UpToLastGood(c, ls)]) == Accepted(c, ls)
    ensures UpToLastGood(c, ls[..UpToLastGood(c, ls)]) == UpToLastGood(c, ls)
  {
    var n := UpToLastGood(c, ls);
    if n == |ls| {
      assert ls[..n] == ls;
    } else {
      AcceptedUpToLastGood(c, ls[..|ls| - 1]);
      assert ls[..|ls| - 1][..n] == ls[..n];
    }
  }

  /** Truncating at `validBytes` and reading again changes nothing: recovery is idempotent. */
  lemma TruncateIsIdempotent(c: Codec, raw: bytes)
    ensures ReadLog(c, raw).validBytes <= |raw|
    ensures ReadLog(c, raw[..ReadLog(c, raw).validBytes]) == ReadLog(c, raw)
  {
    var ls := Lines(raw);
    var n := UpToLastGood(c, ls);
    var kept := TruncatedLines(raw, n);
    AcceptedUpToLastGood(c, ls);
    assert ls[..n][..n] == ls[..n];
  }

  lemma TruncatedLines(raw: bytes, n: nat) returns (kept: bytes)
    requires n <= |Lines(raw)|
    ensures Size(Lines(raw)[..n]) <= |raw|
    ensures kept == raw[..Size(Lines(raw)[..n])] && Lines(kept) == Lines(raw)[..n]
  {
    hide Lines, Unlines;
    var ls := Lines(raw);
    var tail := LinesCover(raw);
    kept := Unlines(ls[..n]);
    assert ls == ls[..n] + ls[n..];
    UnlinesAppend(ls[..n], ls[n..]);
    assert raw == kept + (Unlines(ls[n..]) + tail);
    NewlineFreePrefix(ls, n);
    WholeFile(ls[..n]);
  }

  lemma WholeFile(ls: seq<bytes>)
    requires NewlineFree(ls)
    ensures Lines(Unlines(ls)) == ls
  {
    LinesAfter(ls, []);
    assert Unlines(ls) + [] == Unlines(ls);
    assert ls + [] == ls;
  }

  lemma {:induction false} NewlineFreePrefix(ls: seq<bytes>, n: nat)
    requires NewlineFree(ls) && n <= |ls|
    ensures NewlineFree(ls[..n])
  {
    if n > 0 {
      NewlineFreePrefix(ls[1..], n - 1);
      assert ls[..n][1..] == ls[1..][..n - 1];
    }
  }

  // ---- the writer's side ----------------------------------------------------------------------------------

  function Encoded(c: Codec, es: seq<Entry>): (ls: seq<bytes>)
    ensures |ls| == |es|
  {
    if es == [] then [] else [c.encode(es[0])] + Encoded(c, es[1..])
  }

  function Serialize(c: Codec, es: seq<Entry>): bytes {
    Unlines(Encoded(c, es))
  }

  lemma {:induction false} EncodedFree(c: Codec, es: seq<Entry>)
    requires c.Valid()
    ensures NewlineFree(Encoded(c, es))
  {
    if es != [] {
      EncodedFree(c, es[1..]);
      assert Encoded(c, es)[1..] == Encoded(c, es[1..]);
    }
  }

  lemma {:induction false} EncodedPrefix(c: Codec, es: seq<Entry>, n: nat)
    requires n <= |es|
    ensures Encoded(c, es)[..n] == Encoded(c, es[..n])
  {
    if n > 0 {
      EncodedPrefix(c, es[1..], n - 1);
      assert es[..n][1..] == es[1..][..n - 1];
    }
  }

  /** `es` may be written behind entries ending at `prevSeq`. */
  ghost predicate Follows(prevSeq: nat, es: seq<Entry>)
    decreases |es|
  {
    es == [] || (prevSeq < es[0].seqNo && Follows(es[0].seqNo, es[1..]))
  }

  lemma {:induction false} IncreasingFollows(prevSeq: nat, es: seq<Entry>)
    requires Increasing(es) && (es != [] ==> prevSeq < es[0].seqNo)
    ensures Follows(prevSeq, es)
    decreases |es|
  {
    if es != [] {
      IncreasingFollows(es[0].seqNo, es[1..]);
    }
  }

  lemma {:induction false} FollowsPrefix(prevSeq: nat, es: seq<Entry>, n: nat)
    requires Follows(prevSeq, es) && n <= |es|
    ensures Follows(prevSeq, es[..n])
    decreases |es|
  {
    if n > 0 {
      FollowsPrefix(es[0].seqNo, es[1..], n - 1);
      assert es[..n][1..] == es[1..][..n - 1];
    }
  }

  lemma AcceptSnoc(c: Codec, ls: seq<bytes>, line: bytes)
    ensures
      var good := Good(c, line, LastSeq(Accepted(c, ls)));
      && Accepted(c, ls + [line]) == (if good.Some? then Accepted(c, ls) + [good.value] else Accepted(c, ls))
      && UpToLastGood(c, ls + [line]) == (if good.Some? then |ls| + 1 else UpToLastGood(c, ls))
  {
    var all := ls + [line];
    assert all[..|all| - 1] == ls;
  }

  /** Records written behind accepted lines are all accepted, whatever those lines were. */
  lemma {:induction false} AcceptWritten(c: Codec, ls: seq<bytes>, es: seq<Entry>)
    requires c.Valid() && Follows(LastSeq(Accepted(c, ls)), es)
    ensures Accepted(c, ls + Encoded(c, es)) == Accepted(c, ls) + es
    ensures UpToLastGood(c, ls + Encoded(c, es)) == if es == [] then UpToLastGood(c, ls) else |ls| + |es|
    decreases |es|
  {
    if es == [] {
      assert ls + Encoded(c, es) == ls;
    } else {
      var line := c.encode(es[0]);
      AcceptSnoc(c, ls, line);
      AcceptWritten(c, ls + [line], es[1..]);
      Associate(ls, [line], Encoded(c, es[1..]));
      Associate(Accepted(c, ls), [es[0]], es[1..]);
      assert es == [es[0]] + es[1..];
    }
  }

  /** A log with nothing damaged in it: every byte belongs to an accepted record. */
  ghost predicate Clean(c: Codec, raw: bytes, es: seq<Entry>) {
    ReadLog(c, raw) == Parsed(es, |raw|, 0)
  }

  lemma CleanLines(c: Codec, raw: bytes, es: seq<Entry>)
    requires Clean(c, raw, es)
    ensures UpToLastGood(c, Lines(raw)) == |Lines(raw)| == |es| && Accepted(c, Lines(raw)) == es
    ensures raw == Unlines(Lines(raw)) && NewlineFree(Lines(raw))
  {
    var tail := LinesCover(raw);
    SizeMonotone(Lines(raw), UpToLastGood(c, Lines(raw)));
    assert tail == [];
    assert raw == Unlines(Lines(raw)) + [];
  }

  lemma CutLines(c: Codec, raw: bytes, have: seq<Entry>, es: seq<Entry>, k: nat)
    requires c.Valid() && Clean(c, raw, have) && k <= |Serialize(c, es)|
    ensures
      Lines(raw + Serialize(c, es)[..k]) == Lines(raw) + Encoded(c, es[..WholeLines(Encoded(c, es), k)])
  {
    var written := Encoded(c, es);
    CleanLines(c, raw, have);
    LinesAfter(Lines(raw), Unlines(written)[..k]);
    EncodedFree(c, es);
    LinesOfCut(written, k);
    EncodedPrefix(c, es, WholeLines(written, k));
  }

  /**
   * A write of `es` behind a clean log, cut at ANY byte (a crash in the middle of it): exactly the records whose
   * newline is inside the cut are read back, after everything that was there, and nothing counts as damage.
   */
  lemma CutAppend(c: Codec, raw: bytes, have: seq<Entry>, es: seq<Entry>, k: nat)
    requires c.Valid() && Clean(c, raw, have) && Follows(LastSeq(have), es) && k <= |Serialize(c, es)|
    ensures
      var n := WholeLines(Encoded(c, es), k);
      ReadLog(c, raw + Serialize(c, es)[..k])
        == Parsed(have + es[..n], |raw| + |Serialize(c, es[..n])|, 0)
  {
    hide ReadLog, Clean, Encoded, WholeLines, Follows, Increasing, Serialize;
    var n := WholeLines(Encoded(c, es), k);
    CutLines(c, raw, have, es, k);
    FollowsPrefix(LastSeq(have), es, n);
    WrittenBehind(c, raw, have, es[..n], raw + Serialize(c, es)[..k]);
  }

  /** Whatever file consists of the lines of a clean log and those of `es`, it reads as both. */
  lemma WrittenBehind(c: Codec, raw: bytes, have: seq<Entry>, es: seq<Entry>, out: bytes)
    requires c.Valid() && Clean(c, raw, have) && Follows(LastSeq(have), es)
    requires Lines(out) == Lines(raw) + Encoded(c, es)
    ensures ReadLog(c, out) == Parsed(have + es, |raw| + |Serialize(c, es)|, 0)
  {
    hide Lines, Unlines, Accepted, UpToLastGood, Encoded, Follows, Increasing, Clean, NewlineFree;
    var ls, all := Lines(raw), Lines(out);
    CleanLines(c, raw, have);
    AcceptWritten(c, ls, es);
    assert all[..|all|] == all;
    SizeAppend(ls, Encoded(c, es));
    assert es == [] ==> ls + Encoded(c, es) == ls;
  }

  lemma {:induction false} WholeLinesAll(ls: seq<bytes>)
    ensures WholeLines(ls, Size(ls)) == |ls|
  {
    if ls != [] {
      WholeLinesAll(ls[1..]);
    }
  }

  /** The number of whole lines in a cut is the largest `n` whose lines fit. */
  lemma {:induction false} WholeLinesIsLargest(ls: seq<bytes>, k: nat)
    ensures Size(ls[..WholeLines(ls, k)]) <= k
    ensures forall m | WholeLines(ls, k) < m <= |ls| :: Size(ls[..m]) > k
  {
    if ls != [] && k >= |ls[0]| + 1 {
      WholeLinesIsLargest(ls[1..], k - |ls[0]| - 1);
      forall m | 1 <= m <= |ls|
        ensures Size(ls[..m]) == |ls[0]| + 1 + Size(ls[1..][..m - 1])
      {
        assert ls[..m][1..] == ls[1..][..m - 1];
      }
    } else if ls != [] {
      forall m | 1 <= m <= |ls|
        ensures Size(ls[..m]) > k
      {
        assert ls[..m][0] == ls[0];
      }
    }
  }

  /** A completed write behind a clean log leaves a clean log. */
  lemma CleanAppend(c: Codec, raw: bytes, have: seq<Entry>, es: seq<Entry>)
    requires c.Valid() && Clean(c, raw, have) && Follows(LastSeq(have), es)
    ensures Clean(c, raw + Serialize(c, es), have + es)
  {
    var written := Serialize(c, es);
    CutAppend(c, raw, have, es, |written|);
    WholeLinesAll(Encoded(c, es));
    assert written[..|written|] == written;
    assert es[..|es|] == es;
  }

  lemma CleanEmpty(c: Codec)
    ensures Clean(c, [], [])
  {
  }

  /** What is written is what is read: the round trip of a whole log. */
  lemma RoundTrip(c: Codec, es: seq<Entry>)
    requires c.Valid() && Increasing(es)
    ensures Clean(c, Serialize(c, es), es)
  {
    CleanEmpty(c);
    IncreasingFollows(0, es);
    CleanAppend(c, [], [], es);
    assert [] + Serialize(c, es) == Serialize(c, es);
    assert [] + es == es;
  }

  /**
   * One damaged line between two runs of records loses exactly that line when it is rejected; it is counted
   * as skipped when a record follows, and is part of the torn tail when none does.
   */
  lemma DamagedLine(c: Codec, a: seq<Entry>, damaged: bytes, b: seq<Entry>)
    requires c.Valid() && Increasing(a + b) && NEWLINE !in damaged
    requires Good(c, damaged, LastSeq(a)).None?
    ensures
      var raw := Serialize(c, a) + damaged + [NEWLINE] + Serialize(c, b);
      ReadLog(c, raw) == if b == [] then Parsed(a, |Serialize(c, a)|, 0) else Parsed(a + b, |raw|, 1)
  {
    hide Lines, Accepted, UpToLastGood, Encoded;
    var all := Encoded(c, a) + [damaged] + Encoded(c, b);
    DamagedLines(c, a, damaged, b);
    IncreasingSplit(a, b);
    DamagedAccepted(c, a, damaged, b);
    DamagedSize(c, a, damaged, b);
    if b == [] {
      assert a + b == a && all[..|a|] == Encoded(c, a);
    } else {
      assert all[..|all|] == all;
    }
  }

  lemma IncreasingSplit(a: seq<Entry>, b: seq<Entry>)
    requires Increasing(a + b)
    ensures Follows(0, a) && Follows(LastSeq(a), b)
  {
    assert forall i | 0 <= i < |a| :: a[i] == (a + b)[i];
    assert forall i | 0 <= i < |b| :: b[i] == (a + b)[|a| + i];
    IncreasingFollows(0, a);
    IncreasingFollows(LastSeq(a), b);
  }

  lemma DamagedAccepted(c: Codec, a: seq<Entry>, damaged: bytes, b: seq<Entry>)
    requires c.Valid() && Follows(0, a) && Follows(LastSeq(a), b) && Good(c, damaged, LastSeq(a)).None?
    ensures
      var all := Encoded(c, a) + [damaged] + Encoded(c, b);
      Accepted(c, all) == a + b && UpToLastGood(c, all) == if b == [] then |a| else |all|
  {
    var front := Encoded(c, a) + [damaged];
    AcceptFromStart(c, a);
    AcceptSnoc(c, Encoded(c, a), damaged);
    assert Accepted(c, front) == a && UpToLastGood(c, front) == |a|;
    AcceptWritten(c, front, b);
  }

  lemma AcceptFromStart(c: Codec, es: seq<Entry>)
    requires c.Valid() && Follows(0, es)
    ensures Accepted(c, Encoded(c, es)) == es && UpToLastGood(c, Encoded(c, es)) == |es|
  {
    AcceptWritten(c, [], es);
    assert [] + Encoded(c, es) == Encoded(c, es);
    assert [] + es == es;
  }

  lemma DamagedLines(c: Codec, a: seq<Entry>, damaged: bytes, b: seq<Entry>)
    requires c.Valid() && NEWLINE !in damaged
    ensures Lines(Serialize(c, a) + damaged + [NEWLINE] + Serialize(c, b))
         == Encoded(c, a) + [damaged] + Encoded(c, b)
  {
    var la, lb := Encoded(c, a), Encoded(c, b);
    EncodedFree(c, a);
    EncodedFree(c, b);
    LinesAfter(la, damaged + [NEWLINE] + Unlines(lb));
    LinesCons(damaged, Unlines(lb));
    LinesOf(lb, []);
    assert Unlines(lb) + [] == Unlines(lb) && lb + [] == lb;
    Associate(la, [damaged], lb);
    Associate(Unlines(la), damaged + [NEWLINE], Unlines(lb));
    Associate(Unlines(la), damaged, [NEWLINE]);
  }

  lemma LinesOf(a: seq<bytes>, b: seq<bytes>)
    requires NewlineFree(a) && NewlineFree(b)
    ensures Lines(Unlines(a) + Unlines(b)) == a + b
  {
    LinesAfter(a, Unlines(b));
    LinesAfter(b, []);
    assert Unlines(b) + [] == Unlines(b);
    assert b + [] == b;
  }

  lemma DamagedSize(c: Codec, a: seq<Entry>, damaged: bytes, b: seq<Entry>)
    ensures Size(Encoded(c, a) + [damaged] + Encoded(c, b))
         == |Serialize(c, a) + damaged + [NEWLINE] + Serialize(c, b)|
  {
    SizeAppend(Encoded(c, a) + [damaged], Encoded(c, b));
    SizeAppend(Encoded(c, a), [damaged]);
    assert [damaged][1..] == [];
  }

  // ---- a damaged line that is believed ------------------------------------------------------------------------

  /** The entries numbered above the mark. */
  function Above(es: seq<Entry>, after: nat): (r: seq<Entry>)
    ensures |r| <= |es|
  {
    if es == [] then []
    else if es[0].seqNo > after then [es[0]] + Above(es[1..], after)
    else Above(es[1..], after)
  }

  lemma {:induction false} AboveKeeps(es: seq<Entry>, after: nat)
    requires Increasing(es)
    ensures Increasing(Above(es, after))
    ensures forall e :: e in Above(es, after) <==> e in es && e.seqNo > after
    ensures es != [] && Above(es, after) != [] ==> es[0].seqNo <= Above(es, after)[0].seqNo
  {
    if es != [] {
      var rest := es[1..];
      IncreasingTail(es);
      hide Increasing;
      AboveKeeps(rest, after);
      assert forall e :: e in es <==> e == es[0] || e in rest;
      IncreasingCons(es[0], Above(rest, after));
    }
  }

  lemma IncreasingTail(es: seq<Entry>)
    requires Increasing(es) && es != []
    ensures Increasing(es[1..]) && es[0].seqNo > 0 && (es[1..] != [] ==> es[0].seqNo < es[1..][0].seqNo)
  {
  }

  lemma IncreasingCons(e: Entry, es: seq<Entry>)
    ensures Increasing(es) && e.seqNo > 0 && (es != [] ==> e.seqNo < es[0].seqNo) ==> Increasing([e] + es)
  {
  }

  /** Records at or below what was accepted last are as good as damaged. */
  lemma {:induction false} OvertakenIgnored(c: Codec, ls: seq<bytes>, es: seq<Entry>)
    requires c.Valid() && (forall i | 0 <= i < |es| :: es[i].seqNo <= LastSeq(Accepted(c, ls)))
    ensures Accepted(c, ls + Encoded(c, es)) == Accepted(c, ls)
    ensures UpToLastGood(c, ls + Encoded(c, es)) == UpToLastGood(c, ls)
    decreases |es|
  {
    if es == [] {
      assert ls + Encoded(c, es) == ls;
    } else {
      var line := c.encode(es[0]);
      AcceptSnoc(c, ls, line);
      OvertakenIgnored(c, ls + [line], es[1..]);
      Associate(ls, [line], Encoded(c, es[1..]));
    }
  }

  /** Increasing records are the overtaken ones, then those above the mark. */
  lemma SplitOvertaken(es: seq<Entry>, after: nat) returns (n: nat)
    requires Increasing(es)
    ensures n <= |es| && es[n..] == Above(es, after)
    ensures forall i | 0 <= i < n :: es[i].seqNo <= after
    ensures n < |es| ==> es[n].seqNo > after
  {
    hide Above;
    var early := SplitAtMark(es, after);
    var late := Above(es, after);
    AboveKeeps(es, after);
    n := |early|;
    assert es[n..] == late;
    assert forall i | 0 <= i < n :: es[i] == early[i] && early[i] in early;
    if n < |es| {
      assert es[n] == late[0] && late[0] in late;
    }
  }

  /** The entries at or below a mark come first. */
  lemma {:induction false} SplitAtMark(es: seq<Entry>, after: nat) returns (early: seq<Entry>)
    requires Increasing(es)
    ensures es == early + Above(es, after) && forall e | e in early :: e.seqNo <= after
    decreases |es|
  {
    if es == [] {
      early := [];
    } else if es[0].seqNo <= after {
      var rest := SplitAtMark(es[1..], after);
      early := [es[0]] + rest;
      Associate([es[0]], rest, Above(es[1..], after));
    } else {
      early := [];
      AboveAllOf(es, after);
    }
  }

  lemma {:induction false} AboveAllOf(es: seq<Entry>, after: nat)
    requires Increasing(es) && (es != [] ==> es[0].seqNo > after)
    ensures Above(es, after) == es
    decreases |es|
  {
    if es != [] {
      AboveAllOf(es[1..], after);
    }
  }

  lemma {:induction false} EncodedAppend(c: Codec, a: seq<Entry>, b: seq<Entry>)
    ensures Encoded(c, a + b) == Encoded(c, a) + Encoded(c, b)
  {
    if a == [] {
      assert a + b == b;
    } else {
      assert (a + b)[1..] == a[1..] + b;
      EncodedAppend(c, a[1..], b);
    }
  }

  lemma BelievedAccepted(c: Codec, a: seq<Entry>, damaged: bytes, b: seq<Entry>, n: nat)
    requires c.Valid() && Follows(0, a) && Good(c, damaged, LastSeq(a)).Some? && n <= |b| && Increasing(b[n..])
    requires forall i | 0 <= i < n :: b[i].seqNo <= Good(c, damaged, LastSeq(a)).value.seqNo
    requires n < |b| ==> b[n].seqNo > Good(c, damaged, LastSeq(a)).value.seqNo
    ensures
      var g := Good(c, damaged, LastSeq(a)).value;
      var all := Encoded(c, a) + [damaged] + Encoded(c, b);
      && Accepted(c, all) == a + [g] + b[n..]
      && UpToLastGood(c, all) == if n == |b| then |a| + 1 else |all|
  {
    hide Accepted, UpToLastGood, Encoded, Good, Follows, Increasing;
    var g := Good(c, damaged, LastSeq(a)).value;
    var front := Encoded(c, a) + [damaged];
    AcceptFromStart(c, a);
    AcceptSnoc(c, Encoded(c, a), damaged);
    OvertakenIgnored(c, front, b[..n]);
    var more := front + Encoded(c, b[..n]);
    IncreasingFollows(g.seqNo, b[n..]);
    AcceptWritten(c, more, b[n..]);
    assert b[..n] + b[n..] == b;
    EncodedAppend(c, b[..n], b[n..]);
    Associate(front, Encoded(c, b[..n]), Encoded(c, b[n..]));
    assert b[n..] == [] ==> a + [g] + b[n..] == a + [g];
  }

  /**
   * A damaged line that still decodes to a record further ahead is believed: it is read as that record, and the
   * records behind it that it overtakes are lost, counted as skipped when one further ahead still follows.
   */
  lemma DamagedLineBelieved(c: Codec, a: seq<Entry>, damaged: bytes, b: seq<Entry>)
    requires c.Valid() && Increasing(a + b) && NEWLINE !in damaged
    requires Good(c, damaged, LastSeq(a)).Some?
    ensures
      var g := Good(c, damaged, LastSeq(a)).value;
      var raw := Serialize(c, a) + damaged + [NEWLINE] + Serialize(c, b);
      var later := Above(b, g.seqNo);
      ReadLog(c, raw) ==
        if later == [] then Parsed(a + [g], |Serialize(c, a) + damaged + [NEWLINE]|, 0)
        else Parsed(a + [g] + later, |raw|, |b| - |later|)
  {
    hide Lines, Accepted, UpToLastGood, Encoded, Good, Above, Unlines, Increasing, Follows, Serialize, Size;
    var g := Good(c, damaged, LastSeq(a)).value;
    var all := Encoded(c, a) + [damaged] + Encoded(c, b);
    DamagedLines(c, a, damaged, b);
    IncreasingSplit(a, b);
    IncreasingParts(a, b);
    var n := SplitOvertaken(b, g.seqNo);
    IncreasingFrom(b, n);
    BelievedAccepted(c, a, damaged, b, n);
    DamagedSize(c, a, damaged, b);
    if n == |b| {
      assert b[n..] == [] && a + [g] + b[n..] == a + [g];
      assert all[..|a| + 1] == Encoded(c, a) + [damaged];
      DamagedSize(c, a, damaged, []);
      NothingSerialized(c, Encoded(c, a) + [damaged], Serialize(c, a) + damaged + [NEWLINE]);
    } else {
      assert all[..|all|] == all;
    }
  }

  lemma IncreasingFrom(b: seq<Entry>, n: nat)
    requires Increasing(b) && n <= |b|
    ensures Increasing(b[n..])
  {
    assert forall i | 0 <= i < |b[n..]| :: b[n..][i] == b[n + i];
  }

  lemma IncreasingParts(a: seq<Entry>, b: seq<Entry>)
    requires Increasing(a + b)
    ensures Increasing(a) && Increasing(b)
  {
    assert forall i | 0 <= i < |a| :: a[i] == (a + b)[i];
    assert forall i | 0 <= i < |b| :: b[i] == (a + b)[|a| + i];
  }

  lemma NothingSerialized(c: Codec, ls: seq<bytes>, raw: bytes)
    ensures ls + Encoded(c, []) == ls && raw + Serialize(c, []) == raw
  {
  }

  /** The damaged line costs no other record. */
  ghost predicate LosesNoOther(c: Codec, a: seq<Entry>, damaged: bytes, b: seq<Entry>) {
    forall e | e in a + b :: e in ReadLog(c, Serialize(c, a) + damaged + [NEWLINE] + Serialize(c, b)).entries
  }

  /**
   * Exactly when a damaged line loses only itself: it does not decode, or decodes to a number not past the record
   * before it, or nothing follows, or it decodes below the next record, or to the next record itself.
   */
  lemma DamagedLineLosesOnlyItself(c: Codec, a: seq<Entry>, damaged: bytes, b: seq<Entry>)
    requires c.Valid() && Increasing(a + b) && NEWLINE !in damaged
    ensures LosesNoOther(c, a, damaged, b) <==>
      || c.decode(damaged) == None
      || c.decode(damaged).value.seqNo <= LastSeq(a)
      || b == []
      || c.decode(damaged).value.seqNo < b[0].seqNo
      || c.decode(damaged).value == b[0]
  {
    hide ReadLog, Above, Increasing;
    IncreasingParts(a, b);
    if Good(c, damaged, LastSeq(a)).None? {
      DamagedLine(c, a, damaged, b);
      assert b == [] ==> a + b == a;
    } else {
      var g := Good(c, damaged, LastSeq(a)).value;
      DamagedLineBelieved(c, a, damaged, b);
      AboveKeeps(b, g.seqNo);
      assert (ReadLog(c, Serialize(c, a) + damaged + [NEWLINE] + Serialize(c, b)).entries
              == a + [g] + Above(b, g.seqNo)) by {
        assert a + [g] + [] == a + [g];
      }
      NextOvertaken(a, b, g);
    }
  }

  lemma NextOvertaken(a: seq<Entry>, b: seq<Entry>, g: Entry)
    requires Increasing(a + b) && g.seqNo > LastSeq(a)
    ensures (forall e | e in a + b :: e in a + [g] + Above(b, g.seqNo))
            <==> b == [] || g.seqNo < b[0].seqNo || g == b[0]
  {
    hide Above;
    IncreasingParts(a, b);
    AboveKeeps(b, g.seqNo);
    var read := a + [g] + Above(b, g.seqNo);
    if b != [] {
      var i := |a|;
      assert (a + b)[i] == b[0] && b[0] in a + b;
      assert forall e | e in a :: e.seqNo < b[0].seqNo by {
        assert forall k | 0 <= k < |a| :: a[k] == (a + b)[k];
      }
      assert forall e :: e in read <==> e in a || e == g || e in Above(b, g.seqNo);
      forall e | e in b && e != b[0] ensures e.seqNo > b[0].seqNo {
        var k :| 0 <= k < |b| && b[k] == e;
      }
    }
  }

  /** Such a line exists for every codec: a record whose number was damaged from 2 to 9 hides the record behind it. */
  lemma DamagedNumberHidesTheNext(c: Codec)
    requires c.Valid()
    ensures
      var a, b := [Entry(1, 0, Done)], [Entry(3, 0, Done)];
      var damaged := c.encode(Entry(9, 0, Done));
      && ReadLog(c, Serialize(c, a) + damaged + [NEWLINE] + Serialize(c, b)).entries
         == [Entry(1, 0, Done), Entry(9, 0, Done)]
      && !LosesNoOther(c, a, damaged, b)
  {
    hide ReadLog, LosesNoOther;
    var a, b := [Entry(1, 0, Done)], [Entry(3, 0, Done)];
    assert a + b == [Entry(1, 0, Done), Entry(3, 0, Done)];
    assert b[1..] == [];
    var damaged := c.encode(Entry(9, 0, Done));
    DamagedLineBelieved(c, a, damaged, b);
    DamagedLineLosesOnlyItself(c, a, damaged, b);
  }
}
