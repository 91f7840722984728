/**
  The byte-range reader behind read_attachment. It pages through a text file by
  byte offset and never splits a rune. UTF-8 syntax is section 4 of RFC 3629.
 */
module Utf8Range {
  import opened Wrappers

  type byte = b: int | 0 <= b < 256
  type Bytes = seq<byte>

  /** utf8.UTFMax - 1: the lookahead that lets the last rune of a page be finished. */
  const LOOKAHEAD := 3

  datatype RangeError = InvalidRange | Unalignable

  // ---------------------------------------------------------------- UTF-8

  predicate Continuation(b: byte) { 0x80 <= b < 0xC0 }

  /** Length of the well-formed character at the head of `s`, 0 when there is none. */
  function RuneLength(s: Bytes): (n: nat)
    ensures n <= |s| && n <= LOOKAHEAD + 1
  {
    if |s| >= 1 && s[0] < 0x80 then 1
    else if |s| >= 2 && 0xC2 <= s[0] <= 0xDF && Continuation(s[1]) then 2
    else if |s| >= 3 && ThreeByteHead(s[0], s[1]) && Continuation(s[2]) then 3
    else if |s| >= 4 && FourByteHead(s[0], s[1]) && Continuation(s[2]) && Continuation(s[3]) then 4
    else 0
  }

  predicate ThreeByteHead(first: byte, second: byte)
  {
    || (first == 0xE0 && 0xA0 <= second <= 0xBF)
    || (0xE1 <= first <= 0xEC && Continuation(second))
    || (first == 0xED && 0x80 <= second <= 0x9F)
    || (0xEE <= first <= 0xEF && Continuation(second))
  }

  predicate FourByteHead(first: byte, second: byte)
  {
    || (first == 0xF0 && 0x90 <= second <= 0xBF)
    || (0xF1 <= first <= 0xF3 && Continuation(second))
    || (first == 0xF4 && 0x80 <= second <= 0x8F)
  }

  /** utf8.Valid: a concatenation of well-formed characters. */
  predicate Valid(s: Bytes)
    decreases |s|
  {
    s == [] || (RuneLength(s) > 0 && Valid(s[RuneLength(s)..]))
  }

  /** `offset` lies between two characters of `file`. */
  predicate Boundary(file: Bytes, offset: int)
  {
    0 <= offset <= |file| && Valid(file[..offset])
  }

  lemma {:induction false} ValidConcat(a: Bytes, b: Bytes)
    requires Valid(a)
    ensures Valid(a + b) <==> Valid(b)
    decreases |a|
  {
    if a == [] {
      assert a + b == b;
    } else {
      var n := RuneLength(a);
      RuneLengthPrefix(a, b);
      hide RuneLength;
      ValidConcat(a[n..], b);
      assert (a + b)[n..] == a[n..] + b;
    }
  }

  lemma RuneLengthPrefix(a: Bytes, b: Bytes)
    requires RuneLength(a) > 0
    ensures RuneLength(a + b) == RuneLength(a)
  {}

  /** Boundaries of a suffix that starts at a boundary are boundaries of the whole. */
  lemma BoundaryShift(file: Bytes, offset: int, n: int)
    requires Boundary(file, offset) && 0 <= n <= |file| - offset
    ensures Boundary(file, offset + n) <==> Valid(file[offset..offset + n])
  {
    assert file[..offset + n] == file[..offset] + file[offset..offset + n];
    ValidConcat(file[..offset], file[offset..offset + n]);
  }

  /** A character is at most four bytes, so a boundary is never more than three bytes ahead. */
  lemma {:induction false} NearbyBoundary(file: Bytes, from: nat) returns (b: nat)
    requires Valid(file) && from <= |file|
    ensures from <= b <= from + LOOKAHEAD && b <= |file| && Boundary(file, b)
    decreases from
  {
    if from == 0 {
      b := 0;
    } else {
      var n := RuneLength(file);
      assert Valid(file[..n]) by {
        assert RuneLength(file[..n]) == n;
        assert file[..n][n..] == [];
      }
      if from <= n {
        b := n;
      } else {
        var rest := NearbyBoundary(file[n..], from - n);
        b := rest + n;
        assert file[n..][..rest] == file[n..n + rest];
        BoundaryShift(file, n, rest);
      }
    }
  }

  /** Inside a valid text a boundary is exactly a place where no continuation byte starts. */
  lemma {:induction false} BoundaryIsRuneStart(file: Bytes, offset: nat)
    requires Valid(file) && offset < |file|
    ensures Boundary(file, offset) <==> !Continuation(file[offset])
    decreases offset
  {
    var n := RuneLength(file);
    if 0 < offset < n {
      var cut := file[..offset];
      assert RuneLength(cut) == 0;
    } else if n <= offset {
      BoundaryIsRuneStart(file[n..], offset - n);
      assert Valid(file[..n]) by {
        assert RuneLength(file[..n]) == n;
        assert file[..n][n..] == [];
      }
      assert file[n..][..offset - n] == file[n..offset];
      BoundaryShift(file, n, offset - n);
    }
  }

  // ---------------------------------------------------------------- the range helper

  datatype Range = Range(content: Bytes, offset: int)

  /** First index at or after `start` that does not hold a continuation byte. */
  function SkipContinuation(raw: Bytes, start: nat): (k: nat)
    requires start <= |raw|
    ensures start <= k <= |raw|
    ensures forall i :: start <= i < k ==> Continuation(raw[i])
    ensures k < |raw| ==> !Continuation(raw[k])
    decreases |raw| - start
  {
    if start < |raw| && Continuation(raw[start]) then SkipContinuation(raw, start + 1) else start
  }

  /** First end at or after `end` at which the prefix is valid, or the end of `raw`. */
  function ExtendToRune(raw: Bytes, end: nat): (e: nat)
    requires end <= |raw|
    ensures end <= e <= |raw|
    ensures e < |raw| ==> Valid(raw[..e])
    ensures forall k :: end <= k < e ==> !Valid(raw[..k])
    decreases |raw| - end
  {
    if end < |raw| && !Valid(raw[..end]) then ExtendToRune(raw, end + 1) else end
  }

  function Min(a: int, b: int): int { if a <= b then a else b }

  function AlignedRange(raw: Bytes, offset: int, limit: nat): Result<Range, RangeError>
  {
    var start := SkipContinuation(raw, 0);
    var rest := raw[start..];
    if rest == [] then Success(Range([], offset + start))
    else
      var end := ExtendToRune(rest, Min(|rest|, limit));
      if Valid(rest[..end]) then Success(Range(rest[..end], offset + start)) else Failure(Unalignable)
  }

  /** projectAssistantUTF8AttachmentRange with its two scanning loops. */
  method AlignRange(raw: Bytes, offset: int, limit: nat) returns (r: Result<Range, RangeError>)
    ensures r == AlignedRange(raw, offset, limit)
    ensures r.Success? ==> Valid(r.value.content) && r.value.content <= raw[r.value.offset - offset..]
  {
    var start := 0;
    while start < |raw| && Continuation(raw[start])
      invariant start <= |raw|
      invariant SkipContinuation(raw, start) == SkipContinuation(raw, 0)
    {
      start := start + 1;
    }
    var rest := raw[start..];
    if |rest| == 0 {
      return Success(Range([], offset + start));
    }
    var end := Min(|rest|, limit);
    while end < |rest| && !Valid(rest[..end])
      invariant Min(|rest|, limit) <= end <= |rest|
      invariant ExtendToRune(rest, end) == ExtendToRune(rest, Min(|rest|, limit))
    {
      end := end + 1;
    }
    if !Valid(rest[..end]) {
      return Failure(Unalignable);
    }
    return Success(Range(rest[..end], offset + start));
  }

  // ---------------------------------------------------------------- the tool

  datatype Read = Read(content: Bytes, complete: bool)

  /** The store-backed reader: a bounded slice of the verified bytes. */
  function ReadStored(data: Bytes, offset: int, limit: int): (r: Result<Read, RangeError>)
    ensures r.Success? <==> offset >= 0 && limit > 0
    ensures r.Success? ==> |r.value.content| <= limit
    ensures r.Success? && offset < |data| ==> r.value.content <= data[offset..]
    ensures r.Success? ==> (r.value.complete <==> offset + |r.value.content| >= |data|)
  {
    if offset < 0 || limit <= 0 then Failure(InvalidRange)
    else if offset >= |data| then Success(Read([], true))
    else
      var end := if limit < |data| - offset then offset + limit else |data|;
      Success(Read(data[offset..end], end == |data|))
  }

  datatype Page = Page(offset: int, nextOffset: int, content: Bytes, complete: bool)

  /** What read_attachment answers for a text receipt of exactly `data`. */
  function PageAt(data: Bytes, offset: int, limit: int, maxLimit: nat): Result<Page, RangeError>
  {
    if offset < 0 || limit < 0 || limit > maxLimit then Failure(InvalidRange)
    else
      match ReadStored(data, offset, limit + LOOKAHEAD)
      case Failure(e) => Failure(e)
      case Success(read) =>
        match AlignedRange(read.content, offset, limit)
        case Failure(e) => Failure(e)
        case Success(range) =>
          var next := range.offset + |range.content|;
          Success(Page(range.offset, next, range.content, read.complete && next == |data|))
  }

  method ReadAttachmentTool(data: Bytes, offset: int, limit: int, maxLimit: nat)
    returns (r: Result<Page, RangeError>)
    ensures r == PageAt(data, offset, limit, maxLimit)
    ensures r.Success? ==> Valid(r.value.content)
  {
    if offset < 0 || limit < 0 || limit > maxLimit {
      return Failure(InvalidRange);
    }
    match ReadStored(data, offset, limit + LOOKAHEAD)
    case Failure(e) =>
      return Failure(e);
    case Success(read) =>
      var aligned := AlignRange(read.content, offset, limit);
      match aligned
      case Failure(e) =>
        return Failure(e);
      case Success(range) =>
        var next := range.offset + |range.content|;
        return Success(Page(range.offset, next, range.content, read.complete && next == |data|));
  }

  // ---------------------------------------------------------------- one page

  function Slice(data: Bytes, from: int, to: int): Bytes
  {
    if 0 <= from <= to <= |data| then data[from..to] else []
  }

  /** Prefixes of the window data[start..stop] are valid exactly at boundaries of the file. */
  lemma WindowPrefixes(data: Bytes, start: int, stop: int)
    requires Boundary(data, start) && start <= stop <= |data|
    ensures forall k :: 0 <= k <= stop - start ==>
              (Valid(data[start..stop][..k]) <==> Boundary(data, start + k))
  {
    forall k | 0 <= k <= stop - start
      ensures Valid(data[start..stop][..k]) <==> Boundary(data, start + k)
    {
      assert data[start..stop][..k] == data[start..start + k];
      BoundaryShift(data, start, k);
    }
  }

  /** First boundary at or after `from`, when there is one before `stop`; `stop` otherwise. */
  function NextBoundary(data: Bytes, from: int, stop: int): (b: int)
    ensures from <= b && (from <= stop ==> b <= stop)
    ensures b < stop ==> Boundary(data, b)
    ensures forall k :: from <= k < b ==> !Boundary(data, k)
    decreases stop - from
  {
    if from < stop && !Boundary(data, from) then NextBoundary(data, from + 1, stop) else from
  }

  /** On a window that starts at a boundary the range helper stops at the next boundary of the file. */
  lemma AlignedFromBoundary(data: Bytes, start: int, stop: int, offset: int, limit: nat)
    requires Boundary(data, start) && start < stop <= |data| && !Continuation(data[start])
    ensures var b := NextBoundary(data, start + Min(stop - start, limit), stop);
            AlignedRange(data[start..stop], offset, limit)
            == if Boundary(data, b) then Success(Range(data[start..b], offset)) else Failure(Unalignable)
  {
    hide Valid;
    var raw := data[start..stop];
    var least := Min(|raw|, limit);
    var b := NextBoundary(data, start + least, stop);
    assert SkipContinuation(raw, 0) == 0 by { assert raw[0] == data[start]; }
    assert raw[0..] == raw;
    WindowPrefixes(data, start, stop);
    SameEnd(data, start, stop, least);
    assert raw[..b - start] == data[start..b];
  }

  lemma SameEnd(data: Bytes, start: int, stop: int, least: nat)
    requires Boundary(data, start) && start + least <= stop <= |data|
    requires forall k :: 0 <= k <= stop - start ==>
              (Valid(data[start..stop][..k]) <==> Boundary(data, start + k))
    ensures ExtendToRune(data[start..stop], least) == NextBoundary(data, start + least, stop) - start
  {
    var raw := data[start..stop];
    var e := ExtendToRune(raw, least);
    var b := NextBoundary(data, start + least, stop);
    assert e < |raw| ==> Boundary(data, start + e);
    assert b < stop ==> Valid(raw[..b - start]);
  }

  lemma SliceValid(data: Bytes, from: int, to: int)
    requires Boundary(data, from) && Boundary(data, to) && from <= to
    ensures Valid(data[from..to])
  {
    assert data[from..from + (to - from)] == data[from..to];
    BoundaryShift(data, from, to - from);
  }

  /** The first boundary at least `limit` bytes after `offset`: where a page must end. */
  function PageEnd(data: Bytes, offset: int, limit: int): int
    requires 0 <= offset <= |data| && 0 <= limit
  {
    NextBoundary(data, Min(offset + limit, |data|), |data|)
  }

  lemma PageEndNear(data: Bytes, offset: int, limit: int)
    requires Valid(data) && 0 <= offset <= |data| && 0 <= limit
    ensures Boundary(data, PageEnd(data, offset, limit))
    ensures PageEnd(data, offset, limit) <= offset + limit + 3
  {
    var near := NearbyBoundary(data, Min(offset + limit, |data|));
    assert PageEnd(data, offset, limit) <= near;
    WholeIsBoundary(data);
  }

  /**
    From a boundary every page succeeds, is the slice up to the first boundary at
    least `limit` bytes on, and exceeds the limit by at most three bytes.
   */
  lemma PageFromBoundary(data: Bytes, offset: int, limit: int, maxLimit: nat)
    requires Valid(data) && Boundary(data, offset) && 0 <= limit <= maxLimit
    ensures var next := PageEnd(data, offset, limit);
            && next <= offset + limit + 3
            && Boundary(data, next)
            && PageAt(data, offset, limit, maxLimit)
               == Success(Page(offset, next, data[offset..next], next == |data|))
  {
    hide Valid, AlignedRange, PageAt;
    var from := Min(offset + limit, |data|);
    var next := PageEnd(data, offset, limit);
    PageEndNear(data, offset, limit);
    if offset < |data| {
      var stop := Min(offset + limit + LOOKAHEAD, |data|);
      assert AlignedRange(data[offset..stop], offset, limit) == Success(Range(data[offset..next], offset)) by {
        BoundaryIsRuneStart(data, offset);
        StopIrrelevant(data, from, stop, next);
        assert offset + Min(stop - offset, limit) == from;
        AlignedFromBoundary(data, offset, stop, offset, limit);
      }
      PageOfWindow(data, offset, limit, maxLimit);
    } else {
      assert data[offset..next] == [];
      PageAtEnd(data, limit, maxLimit);
    }
  }

  lemma PageAtEnd(data: Bytes, limit: int, maxLimit: nat)
    requires 0 <= limit <= maxLimit
    ensures PageAt(data, |data|, limit, maxLimit) == Success(Page(|data|, |data|, [], true))
  {
    assert SkipContinuation([], 0) == 0;
  }

  lemma WholeIsBoundary(data: Bytes)
    requires Valid(data)
    ensures Boundary(data, |data|)
  {
    assert data[..|data|] == data;
  }

  /** Looking no further than `stop` finds the same boundary when one lies within reach. */
  lemma StopIrrelevant(data: Bytes, from: int, stop: int, next: int)
    requires 0 <= from <= next <= stop <= |data| && Boundary(data, next)
    requires next == NextBoundary(data, from, |data|)
    ensures NextBoundary(data, from, stop) == next
  {
    var b := NextBoundary(data, from, stop);
    assert b == stop || Boundary(data, b);
  }

  /** Inside the file the store hands out exactly the window of limit + 3 bytes. */
  lemma PageOfWindow(data: Bytes, offset: int, limit: int, maxLimit: nat)
    requires 0 <= offset < |data| && 0 <= limit <= maxLimit
    ensures var stop := Min(offset + limit + LOOKAHEAD, |data|);
            PageAt(data, offset, limit, maxLimit)
            == match AlignedRange(data[offset..stop], offset, limit)
               case Failure(e) => Failure(e)
               case Success(range) =>
                 var next := range.offset + |range.content|;
                 Success(Page(range.offset, next, range.content, stop == |data| && next == |data|))
  {}

  /** With limit 0, which the argument check admits, the reader never advances. */
  lemma ZeroLimitNeverAdvances(data: Bytes, offset: int, maxLimit: nat)
    requires Valid(data) && Boundary(data, offset)
    ensures PageAt(data, offset, 0, maxLimit)
         == Success(Page(offset, offset, [], offset == |data|))
  {
    PageFromBoundary(data, offset, 0, maxLimit);
  }

  /**
    From an arbitrary offset of a valid file the page starts at the next boundary and
    ends at a boundary, or the call fails. It fails exactly when the bytes fetched past
    the skipped continuation bytes run out before a boundary at least `limit` further on.
   */
  lemma PageFromAnywhere(data: Bytes, offset: int, limit: int, maxLimit: nat)
    requires Valid(data) && 0 <= offset < |data| && 1 <= limit <= maxLimit
    ensures var start := NextBoundary(data, offset, |data|);
            var stop := Min(offset + limit + 3, |data|);
            var end := NextBoundary(data, Min(start + limit, stop), stop);
            PageAt(data, offset, limit, maxLimit)
            == if Boundary(data, end)
               then Success(Page(start, end, Slice(data, start, end), end == |data|))
               else Failure(Unalignable)
  {
    assert LOOKAHEAD == 3;
    hide *;
    StartWithinReach(data, offset, limit);
    AnywherePage(data, offset, NextBoundary(data, offset, |data|), limit, maxLimit);
  }

  lemma AnywherePage(data: Bytes, offset: int, start: int, limit: int, maxLimit: nat)
    requires Valid(data) && 0 <= offset < |data| && 1 <= limit <= maxLimit
    requires start == NextBoundary(data, offset, |data|) && Boundary(data, start)
    requires start <= Min(offset + limit + LOOKAHEAD, |data|)
    ensures var stop := Min(offset + limit + LOOKAHEAD, |data|);
            var end := NextBoundary(data, Min(start + limit, stop), stop);
            PageAt(data, offset, limit, maxLimit)
            == if Boundary(data, end)
               then Success(Page(start, end, Slice(data, start, end), end == |data|))
               else Failure(Unalignable)
  {
    hide Valid, AlignedRange, PageAt, Boundary;
    var stop := Min(offset + limit + LOOKAHEAD, |data|);
    SkipReachesBoundary(data, offset, stop);
    AlignedAfterSkip(data, offset, start, stop, limit);
    PageOfWindow(data, offset, limit, maxLimit);
  }

  lemma StartWithinReach(data: Bytes, offset: int, limit: int)
    requires Valid(data) && 0 <= offset < |data| && 1 <= limit
    ensures var start := NextBoundary(data, offset, |data|);
            && start <= Min(offset + limit + LOOKAHEAD, |data|)
            && Boundary(data, start)
  {
    hide Valid;
    var near := NearbyBoundary(data, offset);
    assert NextBoundary(data, offset, |data|) <= near;
    WholeIsBoundary(data);
  }

  lemma AlignedAfterSkip(data: Bytes, offset: int, start: int, stop: int, limit: nat)
    requires Valid(data) && 0 <= offset <= start <= stop <= |data| && Boundary(data, start)
    requires SkipContinuation(data[offset..stop], 0) == start - offset
    ensures var end := NextBoundary(data, Min(start + limit, stop), stop);
            AlignedRange(data[offset..stop], offset, limit)
            == if start == stop || Boundary(data, end)
               then Success(Range(data[start..end], start)) else Failure(Unalignable)
  {
    hide Valid, AlignedRange;
    SkipThenAlign(data[offset..stop], offset, limit, start - offset);
    assert data[offset..stop][start - offset..] == data[start..stop];
    if start < stop {
      BoundaryIsRuneStart(data, start);
      AlignedFromBoundary(data, start, stop, start, limit);
      assert start + Min(stop - start, limit) == Min(start + limit, stop);
    } else {
      assert data[start..stop] == [];
      AlignedEmpty(start, limit);
    }
  }

  lemma AlignedEmpty(offset: int, limit: nat)
    ensures AlignedRange([], offset, limit) == Success(Range([], offset))
  {
    assert SkipContinuation([], 0) == 0;
  }

  /** In a valid file the continuation bytes skipped are exactly those before the next boundary. */
  lemma SkipReachesBoundary(data: Bytes, offset: int, stop: int)
    requires Valid(data) && 0 <= offset < |data| && offset <= stop <= |data|
    requires NextBoundary(data, offset, |data|) <= stop
    ensures SkipContinuation(data[offset..stop], 0) == NextBoundary(data, offset, |data|) - offset
  {
    var raw := data[offset..stop];
    var b := NextBoundary(data, offset, |data|);
    var k := SkipContinuation(raw, 0);
    if offset + k < |data| {
      BoundaryIsRuneStart(data, offset + k);
    }
    if b < |data| {
      BoundaryIsRuneStart(data, b);
    }
    assert k < |raw| ==> raw[k] == data[offset + k];
    assert b - offset < |raw| ==> raw[b - offset] == data[b];
  }

  /** Skipping first and aligning the rest is the same as aligning from the skipped start. */
  lemma SkipThenAlign(raw: Bytes, offset: int, limit: nat, skip: nat)
    requires SkipContinuation(raw, 0) == skip
    ensures AlignedRange(raw, offset, limit) == AlignedRange(raw[skip..], offset + skip, limit)
  {
    var rest := raw[skip..];
    assert SkipContinuation(rest, 0) == 0 && rest[0..] == rest;
  }

  /** The failing case exists: offset 1 into two four-byte characters, one byte requested. */
  lemma OffsetInsideRuneCanFail()
    ensures var data: Bytes := [0xF0, 0x9F, 0x98, 0x80, 0xF0, 0x9F, 0x98, 0x80];
            Valid(data) && PageAt(data, 1, 1, 1) == Failure(Unalignable)
  {
    var data: Bytes := [0xF0, 0x9F, 0x98, 0x80, 0xF0, 0x9F, 0x98, 0x80];
    assert data[4..] == [0xF0, 0x9F, 0x98, 0x80];
    assert data[4..][4..] == [];
    assert Valid(data[4..]);
    var raw := data[1..5];
    assert raw == [0x9F, 0x98, 0x80, 0xF0];
    assert SkipContinuation(raw, 3) == 3;
    assert SkipContinuation(raw, 2) == 3;
    assert SkipContinuation(raw, 1) == 3;
    assert raw[3..] == [0xF0];
    var rest: Bytes := [0xF0];
    assert rest[..1] == rest && !Valid(rest);
    assert ExtendToRune(rest, 1) == 1;
  }

  // ---------------------------------------------------------------- the whole file

  datatype SweepError = Refused(error: RangeError) | Stuck

  /** A caller that follows nextOffset until `complete`. */
  function Sweep(data: Bytes, offset: int, limit: int, maxLimit: nat): Result<seq<Page>, SweepError>
    decreases |data| - offset
  {
    match PageAt(data, offset, limit, maxLimit)
    case Failure(e) => Failure(Refused(e))
    case Success(p) =>
      if p.complete then Success([p])
      else if !(offset < p.nextOffset <= |data|) then Failure(Stuck)
      else
        match Sweep(data, p.nextOffset, limit, maxLimit)
        case Failure(e) => Failure(e)
        case Success(rest) => Success([p] + rest)
  }

  function Contents(pages: seq<Page>): Bytes
  {
    if pages == [] then [] else pages[0].content + Contents(pages[1..])
  }

  /** A page of a sweep: valid, bounded, and complete only at the end. */
  predicate GoodPage(p: Page, limit: int, last: bool)
  {
    Valid(p.content) && |p.content| <= limit + 3 && (p.complete <==> last)
  }

  /**
    Reassembly. For every valid file, every boundary and every admitted limit >= 1 the
    sweep ends without an error, its pages concatenate to exactly the rest of the file,
    each page is valid UTF-8 of at most limit + 3 bytes, only the last one is complete,
    and there are at most ceil(rest / limit) of them (one for an empty rest).
   */
  lemma {:induction false} SweepReassembles(data: Bytes, offset: int, limit: int, maxLimit: nat)
    requires Valid(data) && Boundary(data, offset) && 1 <= limit <= maxLimit
    ensures Sweep(data, offset, limit, maxLimit).Success?
    ensures var pages := Sweep(data, offset, limit, maxLimit).value;
            && |pages| >= 1
            && Contents(pages) == data[offset..]
            && (|pages| > 1 ==> (|pages| - 1) * limit < |data| - offset)
            && (forall i :: 0 <= i < |pages| ==> GoodPage(pages[i], limit, i == |pages| - 1))
    decreases |data| - offset
  {
    hide Valid, PageAt;
    PageFromBoundary(data, offset, limit, maxLimit);
    var next := PageEnd(data, offset, limit);
    SliceValid(data, offset, next);
    var p := PageAt(data, offset, limit, maxLimit).value;
    assert GoodPage(p, limit, next == |data|);
    if next == |data| {
      assert Sweep(data, offset, limit, maxLimit) == Success([p]);
      assert Contents([p]) == p.content + Contents([]);
      assert data[offset..next] == data[offset..];
    } else {
      SweepReassembles(data, next, limit, maxLimit);
      var rest := Sweep(data, next, limit, maxLimit).value;
      SweepStep(data, offset, limit, maxLimit, p, rest);
    }
  }

  /** One page in front of a finished sweep. */
  lemma SweepStep(data: Bytes, offset: int, limit: int, maxLimit: nat, p: Page, rest: seq<Page>)
    requires 0 <= offset && 1 <= limit
    requires PageAt(data, offset, limit, maxLimit) == Success(p) && !p.complete
    requires offset + limit <= p.nextOffset < |data| && p.content == data[offset..p.nextOffset]
    requires Sweep(data, p.nextOffset, limit, maxLimit) == Success(rest) && |rest| >= 1
    requires Contents(rest) == data[p.nextOffset..]
    requires |rest| > 1 ==> (|rest| - 1) * limit < |data| - p.nextOffset
    ensures Sweep(data, offset, limit, maxLimit) == Success([p] + rest)
    ensures Contents([p] + rest) == data[offset..]
    ensures |rest| * limit < |data| - offset
  {
    hide PageAt, Valid;
    assert ([p] + rest)[1..] == rest;
    assert data[offset..] == data[offset..p.nextOffset] + data[p.nextOffset..];
    OneMorePage(|rest|, limit);
  }

  lemma OneMorePage(n: int, limit: int)
    ensures n * limit == (n - 1) * limit + limit
  {}

  lemma WholeFile(data: Bytes, limit: int, maxLimit: nat)
    requires Valid(data) && 1 <= limit <= maxLimit
    ensures var pages := Sweep(data, 0, limit, maxLimit);
            && pages.Success? && Contents(pages.value) == data
            && (forall i :: 0 <= i < |pages.value| ==> GoodPage(pages.value[i], limit, i == |pages.value| - 1))
            && (if data == [] then |pages.value| == 1 else (|pages.value| - 1) * limit < |data|)
  {
    SweepReassembles(data, 0, limit, maxLimit);
    assert data[0..] == data;
    if data == [] {
      PageAtEnd(data, limit, maxLimit);
    }
  }
}
