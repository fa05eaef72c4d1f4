/**
  Cutting a list of paragraphs into overlapping chunks.

  Paragraphs gather in a buffer that is emitted when the next one would make it too large; a tail of the
  emitted buffer is carried over.  A paragraph that is too large by itself is cut into overlapping pieces.
 */
module Chunker {
  import opened Text
  import opened Lists

  datatype Chunk = Chunk(index: nat, text: string)

  function Join(items: seq<string>): string {
    if items == [] then ""
    else if |items| == 1 then items[0]
    else Join(items[..|items| - 1]) + "\n\n" + items[|items| - 1]
  }

  ghost predicate Occurs(part: string, text: string) {
    exists before, after :: text == before + part + after
  }

  lemma OccursWithin(part: string, middle: string, text: string)
    requires Occurs(part, middle) && Occurs(middle, text)
    ensures Occurs(part, text)
  {
    var a, b :| middle == a + part + b;
    var c, d :| text == c + middle + d;
    assert text == (c + a) + part + (b + d);
  }

  lemma {:induction false} ItemOccursInJoin(items: seq<string>, k: nat)
    requires k < |items|
    ensures Occurs(items[k], Join(items))
  {
    var last := |items| - 1;
    if last == 0 {
      assert Join(items) == "" + items[k] + "";
    } else if k == last {
      assert Join(items) == (Join(items[..last]) + "\n\n") + items[k] + "";
    } else {
      ItemOccursInJoin(items[..last], k);
      assert Join(items) == "" + Join(items[..last]) + ("\n\n" + items[last]);
      OccursWithin(items[k], Join(items[..last]), Join(items));
    }
  }

  /** The characters of the items lo, …, hi - 1. */
  function Total(items: seq<string>, lo: nat, hi: nat): nat
    requires lo <= hi <= |items|
  {
    if lo == hi then 0 else Total(items, lo, hi - 1) + |items[hi - 1]|
  }

  function Size(items: seq<string>): nat {
    Total(items, 0, |items|)
  }

  lemma {:induction false} TotalOfParts(items: seq<string>, lo: nat, mid: nat, hi: nat)
    requires lo <= mid <= hi <= |items|
    ensures Total(items, lo, hi) == Total(items, lo, mid) + Total(items, mid, hi)
  {
    if mid < hi {
      TotalOfParts(items, lo, mid, hi - 1);
    }
  }

  lemma {:induction false} TotalFromFirst(items: seq<string>, lo: nat, hi: nat)
    requires lo < hi <= |items|
    ensures Total(items, lo, hi) == |items[lo]| + Total(items, lo + 1, hi)
  {
    TotalOfParts(items, lo, lo + 1, hi);
    assert Total(items, lo, lo) == 0;
  }

  /** A total speaks only of the items in its range. */
  lemma {:induction false} TotalOfStretch(items: seq<string>, lo: nat, part: seq<string>, a: nat, b: nat)
    requires a <= b <= |part| && lo + |part| <= |items| && items[lo..lo + |part|] == part
    ensures Total(part, a, b) == Total(items, lo + a, lo + b)
  {
    if a < b {
      TotalOfStretch(items, lo, part, a, b - 1);
      assert items[lo..lo + |part|][b - 1] == items[lo + b - 1];
    }
  }

  lemma SizeOfMore(items: seq<string>, item: string)
    ensures Size(items + [item]) == Size(items) + |item|
  {
    TotalOfStretch(items + [item], 0, items, 0, |items|);
  }

  // ---------- The tail carried over ----------

  /** From lo, …, hi - 1 the tail that starts at k is carried: the shortest of `overlap` characters, or all of it. */
  predicate IsCarry(items: seq<string>, overlap: nat, lo: nat, hi: nat, k: nat)
    requires lo <= hi <= |items|
  {
    && lo <= k <= hi
    && (k == lo || Total(items, k, hi) >= overlap)
    && (k < hi ==> Total(items, k + 1, hi) < overlap)
  }

  lemma CarryIsAtMost(items: seq<string>, overlap: nat, lo: nat, hi: nat, k: nat, l: nat)
    requires lo <= hi <= |items| && IsCarry(items, overlap, lo, hi, k) && IsCarry(items, overlap, lo, hi, l)
    ensures k <= l
  {
    if l < k {
      TotalOfParts(items, l + 1, k, hi);
    }
  }

  function CarryFrom(buffer: seq<string>, overlap: nat, k: nat): (start: nat)
    requires k <= |buffer| && (k < |buffer| ==> Total(buffer, k + 1, |buffer|) < overlap)
    ensures IsCarry(buffer, overlap, 0, |buffer|, start)
  {
    if k == 0 || Total(buffer, k, |buffer|) >= overlap then k else CarryFrom(buffer, overlap, k - 1)
  }

  function CarryStart(buffer: seq<string>, overlap: nat): nat {
    CarryFrom(buffer, overlap, |buffer|)
  }

  method OverlapBuffer(buffer: seq<string>, overlapChars: int) returns (carried: seq<string>)
    ensures |carried| <= |buffer| && carried == buffer[|buffer| - |carried|..]
    ensures IsCarry(buffer, if overlapChars > 0 then overlapChars else 0, 0, |buffer|, |buffer| - |carried|)
  {
    if overlapChars <= 0 {
      return [];
    }
    carried := [];
    var size := 0;
    var k := |buffer|;
    while k > 0
      invariant 0 <= k <= |buffer| && carried == buffer[k..] && size == Total(buffer, k, |buffer|) < overlapChars
      invariant k < |buffer| ==> Total(buffer, k + 1, |buffer|) < overlapChars
    {
      k := k - 1;
      TotalFromFirst(buffer, k, |buffer|);
      assert buffer[k..] == [buffer[k]] + buffer[k + 1..];
      carried := [buffer[k]] + carried;
      size := size + |buffer[k]|;
      if size >= overlapChars {
        break;
      }
    }
  }

  // ---------- Pieces of a paragraph that is too large ----------

  function Stride(maxChars: nat, overlap: nat): nat {
    if maxChars > overlap then maxChars - overlap else 1
  }

  function RawPieces(paragraph: string, maxChars: nat, overlap: nat, start: nat): seq<string>
    decreases |paragraph| - start
  {
    if start >= |paragraph| then []
    else
      [Strip(Window(paragraph, start, maxChars))]
      + RawPieces(paragraph, maxChars, overlap, start + Stride(maxChars, overlap))
  }

  function Window(paragraph: string, start: nat, maxChars: nat): string
    requires start <= |paragraph|
  {
    paragraph[start..if start + maxChars < |paragraph| then start + maxChars else |paragraph|]
  }

  function Pieces(paragraph: string, maxChars: nat, overlap: nat): seq<string> {
    NonEmpty(RawPieces(paragraph, maxChars, overlap, 0))
  }

  method SplitLongParagraph(paragraph: string, maxChars: nat, overlap: nat) returns (pieces: seq<string>)
    ensures pieces == Pieces(paragraph, maxChars, overlap)
  {
    var raw := [];
    var start := 0;
    var stride := if maxChars - overlap > 1 then maxChars - overlap else 1;
    ghost var all := RawPieces(paragraph, maxChars, overlap, 0);
    while start < |paragraph|
      invariant all == raw + RawPieces(paragraph, maxChars, overlap, start)
      decreases |paragraph| - start
    {
      OneMorePiece(raw, paragraph, maxChars, overlap, start);
      raw := raw + [Strip(Window(paragraph, start, maxChars))];
      start := start + stride;
    }
    assert raw == all;
    pieces := NonEmpty(raw);
  }

  lemma OneMorePiece(raw: seq<string>, paragraph: string, maxChars: nat, overlap: nat, start: nat)
    requires start < |paragraph|
    ensures raw + RawPieces(paragraph, maxChars, overlap, start)
            == (raw + [Strip(Window(paragraph, start, maxChars))])
               + RawPieces(paragraph, maxChars, overlap, start + Stride(maxChars, overlap))
  {
  }

  // The piece made of one window has each of its characters that is not a space.
  lemma WindowCovers(paragraph: string, maxChars: nat, start: nat, j: nat) returns (lo: nat, hi: nat)
    requires start <= j < |paragraph| && j < start + maxChars && !IsSpace(paragraph[j])
    ensures lo <= j < hi <= |paragraph| && Strip(Window(paragraph, start, maxChars)) == paragraph[lo..hi]
    ensures paragraph[lo..hi] != ""
  {
    var window := Window(paragraph, start, maxChars);
    lo, hi := StripKeeps(window, j - start);
    StretchOfStretch(paragraph, start, start + |window|, lo, hi);
    lo, hi := start + lo, start + hi;
  }

  lemma RawPieceIsKept(paragraph: string, maxChars: nat, overlap: nat, start: nat, piece: string)
    requires start < |paragraph|
    requires (piece != "" && piece == Strip(Window(paragraph, start, maxChars)))
             || piece in NonEmpty(RawPieces(paragraph, maxChars, overlap, start + Stride(maxChars, overlap)))
    ensures piece in NonEmpty(RawPieces(paragraph, maxChars, overlap, start))
  {
    var raw := RawPieces(paragraph, maxChars, overlap, start);
    var rest := RawPieces(paragraph, maxChars, overlap, start + Stride(maxChars, overlap));
    assert raw == [Strip(Window(paragraph, start, maxChars))] + rest;
    assert piece in raw;
  }

  /** Each character that is not a space is in a piece: the stride is positive and no larger than the window. */
  lemma {:induction false} PiecesCover(paragraph: string, maxChars: nat, overlap: nat, start: nat, j: nat)
      returns (lo: nat, hi: nat)
    requires maxChars > 0 && start <= j < |paragraph| && !IsSpace(paragraph[j])
    ensures lo <= j < hi <= |paragraph| && paragraph[lo..hi] in NonEmpty(RawPieces(paragraph, maxChars, overlap, start))
    decreases |paragraph| - start
  {
    var next := start + Stride(maxChars, overlap);
    if j < next {
      lo, hi := WindowCovers(paragraph, maxChars, start, j);
    } else {
      lo, hi := PiecesCover(paragraph, maxChars, overlap, next, j);
    }
    RawPieceIsKept(paragraph, maxChars, overlap, start, paragraph[lo..hi]);
  }

  // ---------- Chunking ----------

  datatype Cut = Cut(texts: seq<string>, buffer: seq<string>)

  function Flush(cut: Cut, overlap: nat): Cut {
    if cut.buffer == [] then cut
    else Cut(cut.texts + [Join(cut.buffer)], cut.buffer[CarryStart(cut.buffer, overlap)..])
  }

  /** A piece as large as the limit is a chunk by itself. */
  function TakePiece(cut: Cut, piece: string, maxChars: nat): Cut {
    if |piece| >= maxChars then cut.(texts := cut.texts + [piece]) else cut.(buffer := cut.buffer + [piece])
  }

  function TakePieces(cut: Cut, pieces: seq<string>, n: nat, maxChars: nat): Cut
    requires n <= |pieces|
  {
    if n == 0 then cut else TakePiece(TakePieces(cut, pieces, n - 1, maxChars), pieces[n - 1], maxChars)
  }

  function MakeRoom(cut: Cut, paragraph: string, maxChars: nat, overlap: nat): Cut {
    if Size(cut.buffer) + |paragraph| > maxChars then Flush(cut, overlap) else cut
  }

  function Take(cut: Cut, paragraph: string, maxChars: nat, overlap: nat): Cut {
    var room := MakeRoom(cut, paragraph, maxChars, overlap);
    if |paragraph| > maxChars then
      var pieces := Pieces(paragraph, maxChars, overlap);
      TakePieces(Flush(room, overlap), pieces, |pieces|, maxChars)
    else room.(buffer := room.buffer + [paragraph])
  }

  /** After the first n paragraphs. */
  function TakeAll(paragraphs: seq<string>, n: nat, maxChars: nat, overlap: nat): Cut
    requires n <= |paragraphs|
  {
    if n == 0 then Cut([], [])
    else Take(TakeAll(paragraphs, n - 1, maxChars, overlap), paragraphs[n - 1], maxChars, overlap)
  }

  function Texts(paragraphs: seq<string>, maxChars: nat, overlap: nat): seq<string> {
    Flush(TakeAll(paragraphs, |paragraphs|, maxChars, overlap), overlap).texts
  }

  function Limit(maxChars: int): nat {
    if maxChars > 300 then maxChars else 300
  }

  function Overlap(maxChars: int, overlapChars: int): nat {
    var overlap := if overlapChars > 0 then overlapChars else 0;
    if overlap < Limit(maxChars) / 2 then overlap else Limit(maxChars) / 2
  }

  /** Some text has a stretch of the paragraph around its character j. */
  ghost predicate Covers(texts: seq<string>, paragraph: string, j: nat)
    requires j < |paragraph|
  {
    exists lo, hi :: 0 <= lo <= j < hi <= |paragraph| && Held(texts, paragraph[lo..hi])
  }

  ghost predicate Held(texts: seq<string>, part: string) {
    exists k :: 0 <= k < |texts| && Occurs(part, texts[k])
  }

  // ---------- Coverage, for every paragraph list and every setting ----------

  // In the middle of a run a stretch is in a text that is out, or in a buffered item.
  ghost predicate Kept(cut: Cut, part: string) {
    Held(cut.texts, part) || Held(cut.buffer, part)
  }

  lemma HeldByMore(texts: seq<string>, more: seq<string>, part: string)
    requires Held(texts, part)
    ensures Held(texts + more, part)
  {
    var k :| 0 <= k < |texts| && Occurs(part, texts[k]);
    assert (texts + more)[k] == texts[k];
  }

  lemma FlushKeeps(cut: Cut, overlap: nat, part: string)
    requires Kept(cut, part)
    ensures Held(Flush(cut, overlap).texts, part)
  {
    var after := Flush(cut, overlap);
    if Held(cut.texts, part) {
      HeldByMore(cut.texts, [Join(cut.buffer)], part);
    } else {
      var k :| 0 <= k < |cut.buffer| && Occurs(part, cut.buffer[k]);
      ItemOccursInJoin(cut.buffer, k);
      OccursWithin(part, cut.buffer[k], Join(cut.buffer));
      assert after.texts[|cut.texts|] == Join(cut.buffer);
    }
  }

  lemma TakePieceKeeps(cut: Cut, piece: string, maxChars: nat, part: string)
    requires Kept(cut, part) || part == piece
    ensures Kept(TakePiece(cut, piece, maxChars), part)
  {
    if Held(cut.texts, part) {
      HeldByMore(cut.texts, [piece], part);
    } else if Held(cut.buffer, part) {
      HeldByMore(cut.buffer, [piece], part);
    } else {
      ItemIsHeld(cut.texts, part);
      ItemIsHeld(cut.buffer, part);
    }
  }

  lemma {:induction false} TakePiecesKeeps(cut: Cut, pieces: seq<string>, n: nat, maxChars: nat, part: string)
    requires n <= |pieces| && (Kept(cut, part) || part in pieces[..n])
    ensures Kept(TakePieces(cut, pieces, n, maxChars), part)
  {
    if n > 0 {
      if Kept(cut, part) || part in pieces[..n - 1] {
        TakePiecesKeeps(cut, pieces, n - 1, maxChars, part);
      }
      TakePieceKeeps(TakePieces(cut, pieces, n - 1, maxChars), pieces[n - 1], maxChars, part);
    }
  }

  lemma ItemIsHeld(texts: seq<string>, part: string)
    ensures Held(texts + [part], part)
  {
    assert part == "" + part + "";
    assert Occurs(part, (texts + [part])[|texts|]);
  }

  lemma TakeKeeps(cut: Cut, paragraph: string, maxChars: nat, overlap: nat, part: string)
    requires Kept(cut, part)
    ensures Kept(Take(cut, paragraph, maxChars, overlap), part)
  {
    FlushKeeps(cut, overlap, part);
    var room := MakeRoom(cut, paragraph, maxChars, overlap);
    if |paragraph| > maxChars {
      FlushKeeps(room, overlap, part);
      var pieces := Pieces(paragraph, maxChars, overlap);
      TakePiecesKeeps(Flush(room, overlap), pieces, |pieces|, maxChars, part);
    } else if Held(room.buffer, part) {
      HeldByMore(room.buffer, [paragraph], part);
    }
  }

  lemma TakeCovers(cut: Cut, paragraph: string, maxChars: nat, overlap: nat, j: nat) returns (lo: nat, hi: nat)
    requires maxChars > 0 && j < |paragraph| && !IsSpace(paragraph[j])
    ensures lo <= j < hi <= |paragraph| && Kept(Take(cut, paragraph, maxChars, overlap), paragraph[lo..hi])
  {
    var room := MakeRoom(cut, paragraph, maxChars, overlap);
    if |paragraph| > maxChars {
      lo, hi := PiecesCover(paragraph, maxChars, overlap, 0, j);
      var pieces := Pieces(paragraph, maxChars, overlap);
      TakePiecesKeeps(Flush(room, overlap), pieces, |pieces|, maxChars, paragraph[lo..hi]);
    } else {
      lo, hi := 0, |paragraph|;
      assert paragraph[lo..hi] == paragraph;
      ItemIsHeld(room.buffer, paragraph);
    }
  }

  lemma {:induction false} TakeAllCovers(paragraphs: seq<string>, n: nat, maxChars: nat, overlap: nat, i: nat, j: nat)
      returns (lo: nat, hi: nat)
    requires maxChars > 0 && i < n <= |paragraphs| && j < |paragraphs[i]| && !IsSpace(paragraphs[i][j])
    ensures lo <= j < hi <= |paragraphs[i]|
    ensures Kept(TakeAll(paragraphs, n, maxChars, overlap), paragraphs[i][lo..hi])
  {
    var before := TakeAll(paragraphs, n - 1, maxChars, overlap);
    if i == n - 1 {
      lo, hi := TakeCovers(before, paragraphs[i], maxChars, overlap, j);
    } else {
      lo, hi := TakeAllCovers(paragraphs, n - 1, maxChars, overlap, i, j);
      TakeKeeps(before, paragraphs[n - 1], maxChars, overlap, paragraphs[i][lo..hi]);
    }
  }

  /** Each character of each paragraph that is not a space is in some chunk. */
  lemma TextsCover(paragraphs: seq<string>, maxChars: nat, overlap: nat)
    requires maxChars > 0
    ensures forall i, j :: 0 <= i < |paragraphs| && 0 <= j < |paragraphs[i]| && !IsSpace(paragraphs[i][j]) ==>
              Covers(Texts(paragraphs, maxChars, overlap), paragraphs[i], j)
  {
    forall i, j | 0 <= i < |paragraphs| && 0 <= j < |paragraphs[i]| && !IsSpace(paragraphs[i][j])
      ensures Covers(Texts(paragraphs, maxChars, overlap), paragraphs[i], j)
    {
      var lo, hi := TakeAllCovers(paragraphs, |paragraphs|, maxChars, overlap, i, j);
      FlushKeeps(TakeAll(paragraphs, |paragraphs|, maxChars, overlap), overlap, paragraphs[i][lo..hi]);
    }
  }

  // ---------- Windows, when no paragraph is too large ----------

  /** The paragraphs lo, …, hi - 1, of which those before start are carried over. */
  datatype Span = Span(lo: nat, start: nat, hi: nat)

  /** Paragraph m still goes into the window that starts at lo. */
  predicate Fits(paragraphs: seq<string>, maxChars: nat, lo: nat, m: nat)
    requires lo <= m < |paragraphs|
  {
    Total(paragraphs, lo, m) + |paragraphs[m]| <= maxChars
  }

  /** The window brings something new, and takes more only while it fits. */
  predicate Packed(paragraphs: seq<string>, n: nat, maxChars: nat, w: Span)
    requires n <= |paragraphs|
  {
    && w.lo <= w.start < w.hi <= n
    && forall m :: w.start < m < w.hi ==> Fits(paragraphs, maxChars, w.lo, m)
  }

  /** No gap between two windows: the first ended as the next did not fit, and the second has its tail. */
  predicate Follows(paragraphs: seq<string>, maxChars: nat, overlap: nat, v: Span, w: Span)
    requires v.lo <= v.hi < |paragraphs|
  {
    && w.start == v.hi
    && !Fits(paragraphs, maxChars, v.lo, v.hi)
    && IsCarry(paragraphs, overlap, v.lo, v.hi, w.lo)
  }

  predicate Linked(paragraphs: seq<string>, n: nat, maxChars: nat, overlap: nat, windows: seq<Span>, k: nat)
    requires 0 < k < |windows| && n <= |paragraphs|
  {
    var v := windows[k - 1];
    v.lo <= v.hi < n && Follows(paragraphs, maxChars, overlap, v, windows[k])
  }

  /** The windows that cover the first n paragraphs. */
  ghost predicate IsWindowing(paragraphs: seq<string>, n: nat, maxChars: nat, overlap: nat, windows: seq<Span>)
    requires n <= |paragraphs|
  {
    && (windows == [] <==> n == 0)
    && (n > 0 ==> windows[0].lo == windows[0].start == 0 && windows[|windows| - 1].hi == n)
    && (forall k :: 0 <= k < |windows| ==> Packed(paragraphs, n, maxChars, windows[k]))
    && (forall k :: 0 < k < |windows| ==> Linked(paragraphs, n, maxChars, overlap, windows, k))
  }

  ghost predicate AllFit(paragraphs: seq<string>, maxChars: nat) {
    forall i :: 0 <= i < |paragraphs| ==> |paragraphs[i]| <= maxChars
  }

  // A window that ends early does so because the next paragraph does not fit.
  lemma ClosedWhenFull(paragraphs: seq<string>, n: nat, maxChars: nat, overlap: nat, windows: seq<Span>, k: nat)
    requires n <= |paragraphs| && IsWindowing(paragraphs, n, maxChars, overlap, windows)
    requires k < |windows| && windows[k].hi < n
    ensures k + 1 < |windows| && !Fits(paragraphs, maxChars, windows[k].lo, windows[k].hi)
  {
    assert k + 1 < |windows|;
    assert Linked(paragraphs, n, maxChars, overlap, windows, k + 1);
  }

  // Two windowings that agree before window k agree on its start, and the first's is not the shorter one.
  lemma WindowEndsAgree(
      paragraphs: seq<string>, n: nat, maxChars: nat, overlap: nat, a: seq<Span>, b: seq<Span>, k: nat)
    requires n <= |paragraphs| && k < |a| && k < |b| && (k > 0 ==> a[k - 1] == b[k - 1])
    requires IsWindowing(paragraphs, n, maxChars, overlap, a) && IsWindowing(paragraphs, n, maxChars, overlap, b)
    ensures a[k].lo == b[k].lo && a[k].start == b[k].start && a[k].hi >= b[k].hi
  {
    if k > 0 {
      assert Linked(paragraphs, n, maxChars, overlap, a, k) && Linked(paragraphs, n, maxChars, overlap, b, k);
      CarryIsAtMost(paragraphs, overlap, a[k - 1].lo, a[k - 1].hi, a[k].lo, b[k].lo);
      CarryIsAtMost(paragraphs, overlap, a[k - 1].lo, a[k - 1].hi, b[k].lo, a[k].lo);
    }
    assert Packed(paragraphs, n, maxChars, a[k]) && Packed(paragraphs, n, maxChars, b[k]);
    if a[k].hi < b[k].hi {
      ClosedWhenFull(paragraphs, n, maxChars, overlap, a, k);
      assert false;
    }
  }

  lemma {:induction false} WindowsAgree(
      paragraphs: seq<string>, n: nat, maxChars: nat, overlap: nat, a: seq<Span>, b: seq<Span>, k: nat)
    requires n <= |paragraphs| && k < |a|
    requires IsWindowing(paragraphs, n, maxChars, overlap, a) && IsWindowing(paragraphs, n, maxChars, overlap, b)
    ensures k < |b| && a[k] == b[k]
  {
    if k > 0 {
      WindowsAgree(paragraphs, n, maxChars, overlap, a, b, k - 1);
      assert Linked(paragraphs, n, maxChars, overlap, a, k);
      ClosedWhenFull(paragraphs, n, maxChars, overlap, b, k - 1);
    }
    WindowEndsAgree(paragraphs, n, maxChars, overlap, a, b, k);
    WindowEndsAgree(paragraphs, n, maxChars, overlap, b, a, k);
  }

  /** There is at most one way to cut a paragraph list into windows. */
  lemma WindowingIsUnique(paragraphs: seq<string>, maxChars: nat, overlap: nat, a: seq<Span>, b: seq<Span>)
    requires IsWindowing(paragraphs, |paragraphs|, maxChars, overlap, a)
    requires IsWindowing(paragraphs, |paragraphs|, maxChars, overlap, b)
    ensures a == b
  {
    if a != [] {
      WindowsAgree(paragraphs, |paragraphs|, maxChars, overlap, a, b, |a| - 1);
      WindowsAgree(paragraphs, |paragraphs|, maxChars, overlap, b, a, |b| - 1);
    }
    forall k | 0 <= k < |a| ensures a[k] == b[k] {
      WindowsAgree(paragraphs, |paragraphs|, maxChars, overlap, a, b, k);
    }
  }

  lemma MoreToPack(paragraphs: seq<string>, n: nat, maxChars: nat, w: Span)
    requires 0 < n <= |paragraphs| && Packed(paragraphs, n - 1, maxChars, w)
    ensures Packed(paragraphs, n, maxChars, w)
    ensures w.hi == n - 1 && Fits(paragraphs, maxChars, w.lo, n - 1) ==> Packed(paragraphs, n, maxChars, w.(hi := n))
  {
  }

  lemma LastWindowGrows(paragraphs: seq<string>, n: nat, maxChars: nat, overlap: nat, before: seq<Span>)
    requires 1 < n <= |paragraphs| && IsWindowing(paragraphs, n - 1, maxChars, overlap, before)
    requires var w := before[|before| - 1]; w.lo <= n - 1 && Fits(paragraphs, maxChars, w.lo, n - 1)
    ensures var last := |before| - 1;
            IsWindowing(paragraphs, n, maxChars, overlap, before[..last] + [before[last].(hi := n)])
  {
    var last := |before| - 1;
    var after := before[..last] + [before[last].(hi := n)];
    forall k | 0 <= k < |after| ensures Packed(paragraphs, n, maxChars, after[k]) {
      MoreToPack(paragraphs, n, maxChars, before[k]);
    }
    forall k | 0 < k < |after| ensures Linked(paragraphs, n, maxChars, overlap, after, k) {
      assert Linked(paragraphs, n - 1, maxChars, overlap, before, k);
    }
  }

  lemma NextWindowStarts(
      paragraphs: seq<string>, n: nat, maxChars: nat, overlap: nat, before: seq<Span>, next: Span)
    requires 1 < n <= |paragraphs| && IsWindowing(paragraphs, n - 1, maxChars, overlap, before)
    requires Follows(paragraphs, maxChars, overlap, before[|before| - 1], next)
    requires next.lo <= next.start && next.hi == n
    ensures IsWindowing(paragraphs, n, maxChars, overlap, before + [next])
  {
    var after := before + [next];
    forall k | 0 <= k < |after| ensures Packed(paragraphs, n, maxChars, after[k]) {
      if k < |before| {
        MoreToPack(paragraphs, n, maxChars, before[k]);
      }
    }
    forall k | 0 < k < |after| ensures Linked(paragraphs, n, maxChars, overlap, after, k) {
      if k < |before| {
        assert Linked(paragraphs, n - 1, maxChars, overlap, before, k);
      }
    }
  }

  ghost function WindowText(paragraphs: seq<string>, w: Span): string
    requires w.lo <= w.hi <= |paragraphs|
  {
    Join(paragraphs[w.lo..w.hi])
  }

  /** The texts that are out are the closed windows, and the buffer is the open one. */
  ghost predicate CutAt(paragraphs: seq<string>, n: nat, windows: seq<Span>, cut: Cut)
    requires 0 < n <= |paragraphs|
  {
    && windows != [] && |cut.texts| == |windows| - 1
    && (forall k :: 0 <= k < |windows| ==> windows[k].lo <= windows[k].hi <= n)
    && (forall k :: 0 <= k < |cut.texts| ==> cut.texts[k] == WindowText(paragraphs, windows[k]))
    && cut.buffer == paragraphs[windows[|windows| - 1].lo..n]
  }

  lemma OneMoreInStretch(paragraphs: seq<string>, lo: nat, n: nat)
    requires lo <= n < |paragraphs|
    ensures paragraphs[lo..n + 1] == paragraphs[lo..n] + [paragraphs[n]]
  {
  }

  lemma TakeFills(paragraphs: seq<string>, n: nat, maxChars: nat, overlap: nat, lo: nat, cut: Cut)
    requires lo < n < |paragraphs| && |paragraphs[n]| <= maxChars && cut.buffer == paragraphs[lo..n]
    requires Fits(paragraphs, maxChars, lo, n)
    ensures Take(cut, paragraphs[n], maxChars, overlap) == Cut(cut.texts, paragraphs[lo..n + 1])
  {
    TotalOfStretch(paragraphs, lo, cut.buffer, 0, n - lo);
    OneMoreInStretch(paragraphs, lo, n);
  }

  // The start of the tail, as an index into the paragraph list.
  lemma CarryInParagraphs(paragraphs: seq<string>, overlap: nat, lo: nat, hi: nat, buffer: seq<string>) returns (k: nat)
    requires lo <= hi <= |paragraphs| && buffer == paragraphs[lo..hi]
    ensures IsCarry(paragraphs, overlap, lo, hi, k)
    ensures buffer[CarryStart(buffer, overlap)..] == paragraphs[k..hi]
  {
    var start := CarryStart(buffer, overlap);
    k := lo + start;
    TotalOfStretch(paragraphs, lo, buffer, start, |buffer|);
    if start < |buffer| {
      TotalOfStretch(paragraphs, lo, buffer, start + 1, |buffer|);
    }
  }

  lemma TakeCloses(paragraphs: seq<string>, n: nat, maxChars: nat, overlap: nat, w: Span, cut: Cut) returns (next: Span)
    requires w.lo < w.hi == n < |paragraphs| && |paragraphs[n]| <= maxChars && cut.buffer == paragraphs[w.lo..n]
    requires !Fits(paragraphs, maxChars, w.lo, n)
    ensures next.lo <= next.start && next.hi == n + 1 && Follows(paragraphs, maxChars, overlap, w, next)
    ensures Take(cut, paragraphs[n], maxChars, overlap)
            == Cut(cut.texts + [WindowText(paragraphs, w)], paragraphs[next.lo..n + 1])
  {
    TotalOfStretch(paragraphs, w.lo, cut.buffer, 0, n - w.lo);
    var k := CarryInParagraphs(paragraphs, overlap, w.lo, n, cut.buffer);
    next := Span(k, n, n + 1);
    OneMoreInStretch(paragraphs, k, n);
  }

  lemma CutGrows(paragraphs: seq<string>, n: nat, windows: seq<Span>, cut: Cut, texts: seq<string>)
    requires 1 < n <= |paragraphs| && CutAt(paragraphs, n - 1, windows, cut) && texts == cut.texts
    ensures var w := windows[|windows| - 1];
            CutAt(paragraphs, n, windows[..|windows| - 1] + [w.(hi := n)], Cut(texts, paragraphs[w.lo..n]))
  {
  }

  lemma CutCloses(paragraphs: seq<string>, n: nat, windows: seq<Span>, cut: Cut, next: Span)
    requires 1 < n <= |paragraphs| && CutAt(paragraphs, n - 1, windows, cut)
    requires windows[|windows| - 1].hi == n - 1 && next.lo <= next.hi == n
    ensures var w := windows[|windows| - 1];
            CutAt(paragraphs, n, windows + [next], Cut(cut.texts + [WindowText(paragraphs, w)], paragraphs[next.lo..n]))
  {
  }

  lemma OneMoreParagraph(paragraphs: seq<string>, n: nat, maxChars: nat, overlap: nat, before: seq<Span>, cut: Cut)
      returns (after: seq<Span>)
    requires 1 < n <= |paragraphs| && |paragraphs[n - 1]| <= maxChars
    requires IsWindowing(paragraphs, n - 1, maxChars, overlap, before) && CutAt(paragraphs, n - 1, before, cut)
    ensures IsWindowing(paragraphs, n, maxChars, overlap, after)
    ensures CutAt(paragraphs, n, after, Take(cut, paragraphs[n - 1], maxChars, overlap))
  {
    var w := before[|before| - 1];
    assert Packed(paragraphs, n - 1, maxChars, w);
    if Fits(paragraphs, maxChars, w.lo, n - 1) {
      TakeFills(paragraphs, n - 1, maxChars, overlap, w.lo, cut);
      LastWindowGrows(paragraphs, n, maxChars, overlap, before);
      CutGrows(paragraphs, n, before, cut, cut.texts);
      after := before[..|before| - 1] + [w.(hi := n)];
    } else {
      var next := TakeCloses(paragraphs, n - 1, maxChars, overlap, w, cut);
      NextWindowStarts(paragraphs, n, maxChars, overlap, before, next);
      CutCloses(paragraphs, n, before, cut, next);
      after := before + [next];
    }
  }

  lemma {:induction false} TakeAllIsWindows(paragraphs: seq<string>, n: nat, maxChars: nat, overlap: nat)
      returns (windows: seq<Span>)
    requires 0 < n <= |paragraphs| && AllFit(paragraphs, maxChars)
    ensures IsWindowing(paragraphs, n, maxChars, overlap, windows)
    ensures CutAt(paragraphs, n, windows, TakeAll(paragraphs, n, maxChars, overlap))
  {
    if n == 1 {
      windows := [Span(0, 0, 1)];
      assert TakeAll(paragraphs, 0, maxChars, overlap) == Cut([], []);
      assert paragraphs[0..1] == [paragraphs[0]];
    } else {
      var before := TakeAllIsWindows(paragraphs, n - 1, maxChars, overlap);
      windows := OneMoreParagraph(paragraphs, n, maxChars, overlap, before,
        TakeAll(paragraphs, n - 1, maxChars, overlap));
    }
  }

  lemma LastFlush(paragraphs: seq<string>, windows: seq<Span>, cut: Cut, overlap: nat)
    requires paragraphs != [] && CutAt(paragraphs, |paragraphs|, windows, cut)
    requires windows[|windows| - 1].lo < windows[|windows| - 1].hi == |paragraphs|
    ensures Flush(cut, overlap).texts == cut.texts + [WindowText(paragraphs, windows[|windows| - 1])]
  {
  }

  /** When no paragraph is too large the chunks are the joined windows, and these are the only windowing. */
  lemma TextsAreWindows(paragraphs: seq<string>, maxChars: nat, overlap: nat) returns (windows: seq<Span>)
    requires AllFit(paragraphs, maxChars)
    ensures IsWindowing(paragraphs, |paragraphs|, maxChars, overlap, windows)
    ensures var texts := Texts(paragraphs, maxChars, overlap);
            |texts| == |windows|
            && forall k :: 0 <= k < |texts| ==> texts[k] == WindowText(paragraphs, windows[k])
  {
    if paragraphs == [] {
      windows := [];
      assert TakeAll(paragraphs, 0, maxChars, overlap) == Cut([], []);
    } else {
      windows := TakeAllIsWindows(paragraphs, |paragraphs|, maxChars, overlap);
      assert Packed(paragraphs, |paragraphs|, maxChars, windows[|windows| - 1]);
      LastFlush(paragraphs, windows, TakeAll(paragraphs, |paragraphs|, maxChars, overlap), overlap);
    }
  }

  /** What each of the first k windows adds to the one before. */
  ghost function Stitched(paragraphs: seq<string>, windows: seq<Span>, k: nat): seq<string>
    requires k <= |windows| && forall j :: 0 <= j < |windows| ==> windows[j].start <= windows[j].hi <= |paragraphs|
  {
    if k == 0 then []
    else Stitched(paragraphs, windows, k - 1) + paragraphs[windows[k - 1].start..windows[k - 1].hi]
  }

  lemma {:induction false} StitchedSoFar(paragraphs: seq<string>, maxChars: nat, overlap: nat, windows: seq<Span>,
      k: nat)
    requires IsWindowing(paragraphs, |paragraphs|, maxChars, overlap, windows) && 0 < k <= |windows|
    ensures Stitched(paragraphs, windows, k) == paragraphs[..windows[k - 1].hi]
  {
    var w := windows[k - 1];
    if k == 1 {
      assert Stitched(paragraphs, windows, 0) == [];
    } else {
      StitchedSoFar(paragraphs, maxChars, overlap, windows, k - 1);
      assert Linked(paragraphs, |paragraphs|, maxChars, overlap, windows, k - 1);
    }
    assert paragraphs[..w.hi] == paragraphs[..w.start] + paragraphs[w.start..w.hi];
  }

  /** Dropping the overlaps gives back the paragraph list. */
  lemma StitchingGivesBack(paragraphs: seq<string>, maxChars: nat, overlap: nat, windows: seq<Span>)
    requires IsWindowing(paragraphs, |paragraphs|, maxChars, overlap, windows)
    ensures Stitched(paragraphs, windows, |windows|) == paragraphs
  {
    if windows != [] {
      StitchedSoFar(paragraphs, maxChars, overlap, windows, |windows|);
      assert paragraphs[..|paragraphs|] == paragraphs;
    }
  }

  lemma CarryIsSmall(paragraphs: seq<string>, maxChars: nat, overlap: nat, lo: nat, hi: nat, k: nat)
    requires AllFit(paragraphs, maxChars) && lo <= hi <= |paragraphs| && IsCarry(paragraphs, overlap, lo, hi, k)
    ensures Total(paragraphs, k, hi) <= if overlap == 0 then 0 else maxChars + overlap - 1
  {
    if k < hi {
      TotalFromFirst(paragraphs, k, hi);
    }
  }

  lemma PackedSize(paragraphs: seq<string>, maxChars: nat, w: Span, bound: nat)
    requires AllFit(paragraphs, maxChars) && Packed(paragraphs, |paragraphs|, maxChars, w)
    requires Total(paragraphs, w.lo, w.start) <= bound
    ensures Total(paragraphs, w.lo, w.hi) <= maxChars + bound
  {
    assert |paragraphs[w.hi - 1]| <= maxChars;
    if w.start + 1 < w.hi {
      assert Fits(paragraphs, maxChars, w.lo, w.hi - 1);
    }
  }

  /** The paragraphs of a window have at most 2 * maxChars + overlap - 1 characters; maxChars without overlap. */
  lemma WindowSize(paragraphs: seq<string>, maxChars: nat, overlap: nat, windows: seq<Span>, k: nat)
    requires AllFit(paragraphs, maxChars) && k < |windows|
    requires IsWindowing(paragraphs, |paragraphs|, maxChars, overlap, windows)
    ensures windows[k].lo < windows[k].hi <= |paragraphs|
    ensures Total(paragraphs, windows[k].lo, windows[k].hi) <= LargestWindow(maxChars, overlap)
  {
    assert Packed(paragraphs, |paragraphs|, maxChars, windows[k]);
    if k == 0 {
      PackedSize(paragraphs, maxChars, windows[k], 0);
    } else {
      assert Linked(paragraphs, |paragraphs|, maxChars, overlap, windows, k);
      CarryIsSmall(paragraphs, maxChars, overlap, windows[k - 1].lo, windows[k].start, windows[k].lo);
      PackedSize(paragraphs, maxChars, windows[k], if overlap == 0 then 0 else maxChars + overlap - 1);
    }
  }

  function Letters(n: nat): string {
    seq(n, _ => 'a')
  }

  /** The most characters that a window may have. */
  function LargestWindow(maxChars: nat, overlap: nat): nat {
    if overlap == 0 then maxChars else 2 * maxChars + overlap - 1
  }

  /** The bound is reached, whatever the settings. */
  lemma WindowSizeIsReached(maxChars: nat, overlap: nat) returns (paragraphs: seq<string>, windows: seq<Span>)
    requires overlap <= maxChars / 2
    ensures AllFit(paragraphs, maxChars) && IsWindowing(paragraphs, |paragraphs|, maxChars, overlap, windows)
    ensures windows != []
    ensures var w := windows[|windows| - 1]; Total(paragraphs, w.lo, w.hi) == LargestWindow(maxChars, overlap)
  {
    if overlap == 0 {
      paragraphs, windows := [Letters(maxChars)], [Span(0, 0, 1)];
      assert Total(paragraphs, 0, 0) == 0;
    } else if overlap == 1 {
      paragraphs, windows := [Letters(maxChars), Letters(maxChars)], [Span(0, 0, 1), Span(0, 1, 2)];
      assert Total(paragraphs, 0, 0) == 0 && Total(paragraphs, 1, 1) == 0;
      assert Total(paragraphs, 0, 1) == maxChars;
    } else {
      paragraphs, windows := ThreeParagraphs(maxChars, overlap);
    }
  }

  lemma ThreeParagraphs(maxChars: nat, overlap: nat) returns (paragraphs: seq<string>, windows: seq<Span>)
    requires 2 <= overlap <= maxChars / 2
    ensures AllFit(paragraphs, maxChars) && IsWindowing(paragraphs, |paragraphs|, maxChars, overlap, windows)
    ensures windows != []
    ensures var w := windows[|windows| - 1]; Total(paragraphs, w.lo, w.hi) == 2 * maxChars + overlap - 1
  {
    var large, small := Letters(maxChars), Letters(overlap - 1);
    paragraphs, windows := [large, small, large], [Span(0, 0, 1), Span(0, 1, 2), Span(0, 2, 3)];
    assert Total(paragraphs, 0, 0) == 0 && Total(paragraphs, 1, 1) == 0;
    assert Total(paragraphs, 0, 1) == maxChars && Total(paragraphs, 1, 2) == overlap - 1;
    assert Total(paragraphs, 0, 2) == maxChars + overlap - 1;
  }

  // ---------- The method ----------

  method ChunkParagraphs(paragraphs: seq<string>, maxChars: int, overlapChars: int) returns (chunks: seq<Chunk>)
    ensures forall k :: 0 <= k < |chunks| ==> chunks[k].index == k
    ensures TextsOf(chunks) == Texts(paragraphs, Limit(maxChars), Overlap(maxChars, overlapChars))
  {
    var limit, overlap := Limit(maxChars), Overlap(maxChars, overlapChars);
    chunks := [];
    var buffer := [];
    var size := 0;
    for i := 0 to |paragraphs|
      invariant Numbered(chunks) && size == Size(buffer)
      invariant Cut(TextsOf(chunks), buffer) == TakeAll(paragraphs, i, limit, overlap)
    {
      var paragraph := paragraphs[i];
      chunks, buffer, size := TakeParagraph(chunks, buffer, size, paragraph, limit, overlap);
    }
    if buffer != [] {
      chunks, buffer, size := EmitBuffer(chunks, buffer, overlap);
    }
  }

  method TakeParagraph(chunks: seq<Chunk>, buffer: seq<string>, size: nat, paragraph: string, limit: nat, overlap: nat)
      returns (more: seq<Chunk>, filled: seq<string>, newSize: nat)
    requires Numbered(chunks) && size == Size(buffer)
    ensures Numbered(more) && newSize == Size(filled)
    ensures Cut(TextsOf(more), filled) == Take(Cut(TextsOf(chunks), buffer), paragraph, limit, overlap)
  {
    more, filled, newSize := chunks, buffer, size;
    if filled != [] && newSize + |paragraph| > limit {
      more, filled, newSize := EmitBuffer(more, filled, overlap);
    }
    if |paragraph| > limit {
      if filled != [] {
        more, filled, newSize := EmitBuffer(more, filled, overlap);
      }
      more, filled, newSize := EmitPieces(more, filled, newSize, paragraph, limit, overlap);
    } else {
      SizeOfMore(filled, paragraph);
      filled := filled + [paragraph];
      newSize := newSize + |paragraph|;
    }
  }

  method EmitBuffer(chunks: seq<Chunk>, buffer: seq<string>, overlap: nat)
      returns (more: seq<Chunk>, carried: seq<string>, size: nat)
    requires Numbered(chunks) && buffer != []
    ensures Numbered(more) && size == Size(carried)
    ensures Cut(TextsOf(more), carried) == Flush(Cut(TextsOf(chunks), buffer), overlap)
  {
    TextsOfMore(chunks, Chunk(|chunks|, Join(buffer)));
    more := chunks + [Chunk(|chunks|, Join(buffer))];
    carried := OverlapBuffer(buffer, overlap);
    ghost var k := |buffer| - |carried|;
    CarryIsAtMost(buffer, overlap, 0, |buffer|, k, CarryStart(buffer, overlap));
    CarryIsAtMost(buffer, overlap, 0, |buffer|, CarryStart(buffer, overlap), k);
    size := Size(carried);
  }

  method EmitPieces(chunks: seq<Chunk>, buffer: seq<string>, size: nat, paragraph: string, limit: nat, overlap: nat)
      returns (more: seq<Chunk>, filled: seq<string>, newSize: nat)
    requires Numbered(chunks) && size == Size(buffer)
    ensures Numbered(more) && newSize == Size(filled)
    ensures Cut(TextsOf(more), filled)
            == var pieces := Pieces(paragraph, limit, overlap);
               TakePieces(Cut(TextsOf(chunks), buffer), pieces, |pieces|, limit)
  {
    more, filled, newSize := chunks, buffer, size;
    var pieces := SplitLongParagraph(paragraph, limit, overlap);
    for p := 0 to |pieces|
      invariant Numbered(more) && newSize == Size(filled)
      invariant Cut(TextsOf(more), filled) == TakePieces(Cut(TextsOf(chunks), buffer), pieces, p, limit)
    {
      more, filled, newSize := EmitPiece(more, filled, newSize, pieces[p], limit);
    }
  }

  method EmitPiece(chunks: seq<Chunk>, buffer: seq<string>, size: nat, piece: string, limit: nat)
      returns (more: seq<Chunk>, filled: seq<string>, newSize: nat)
    requires Numbered(chunks) && size == Size(buffer)
    ensures Numbered(more) && newSize == Size(filled)
    ensures Cut(TextsOf(more), filled) == TakePiece(Cut(TextsOf(chunks), buffer), piece, limit)
  {
    more, filled, newSize := chunks, buffer, size;
    if |piece| >= limit {
      TextsOfMore(more, Chunk(|more|, piece));
      more := more + [Chunk(|more|, piece)];
    } else {
      SizeOfMore(filled, piece);
      filled := filled + [piece];
      newSize := newSize + |piece|;
    }
  }

  function TextsOf(chunks: seq<Chunk>): (texts: seq<string>)
    ensures |texts| == |chunks| && forall k :: 0 <= k < |chunks| ==> texts[k] == chunks[k].text
  {
    if chunks == [] then [] else TextsOf(chunks[..|chunks| - 1]) + [chunks[|chunks| - 1].text]
  }

  lemma TextsOfMore(chunks: seq<Chunk>, chunk: Chunk)
    ensures TextsOf(chunks + [chunk]) == TextsOf(chunks) + [chunk.text]
  {
    assert (chunks + [chunk])[..|chunks|] == chunks;
  }

  predicate Numbered(chunks: seq<Chunk>) {
    forall k :: 0 <= k < |chunks| ==> chunks[k].index == k
  }
}
