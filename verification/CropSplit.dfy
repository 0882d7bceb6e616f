/** Splitting a long overlap crop into stitched windows.

Every window is at most `maxCrop` long and starts `step` after the previous one; every window owns
one slice of the region.  `Pieces` is the list the loop builds; the lemmas say when the owned slices
tile the region, when each lies in the audio of its own window, and what is lost otherwise.
*/
module CropSplit {
  import opened Arithmetic
  import opened Timeline

  datatype Piece = Piece(window: TimeInterval, owned: TimeInterval)

  function Step(maxCrop: int, stitch: int): int {
    Max(maxCrop - stitch, 1)
  }

  function Pieces(padded: TimeInterval, region: TimeInterval, maxCrop: int, stitch: int): seq<Piece>
    requires maxCrop >= 1 && stitch >= 0
  {
    if padded.Duration() <= maxCrop then [Piece(padded, region)]
    else PiecesFrom(padded, region, maxCrop, Step(maxCrop, stitch), padded.start, region.start)
  }

  function OnePiece(start: int, end: int, ownedStart: int, ownedEnd: int): seq<Piece>
    requires 0 <= start < end && 0 <= ownedStart
  {
    if ownedEnd > ownedStart then [Piece(Interval(start, end), Interval(ownedStart, ownedEnd))] else []
  }

  /** The windows from `start` on, the first of which owns the region from `ownedStart` on. */
  function PiecesFrom(padded: TimeInterval, region: TimeInterval, maxCrop: int, step: int,
                      start: int, ownedStart: int): seq<Piece>
    requires 1 <= step <= maxCrop && 0 <= start < padded.end && 0 <= ownedStart
    decreases padded.end - start
  {
    var end := Min(start + maxCrop, padded.end);
    var ownedEnd := Min(ownedStart + step, region.end);
    var head := OnePiece(start, end, ownedStart, ownedEnd);
    if end >= padded.end then head
    else head + PiecesFrom(padded, region, maxCrop, step, start + step, ownedEnd)
  }

  lemma NextPiece(before: seq<Piece>, padded: TimeInterval, region: TimeInterval, maxCrop: int, step: int,
                  start: int, ownedStart: int)
    requires 1 <= step <= maxCrop && 0 <= start < padded.end && 0 <= ownedStart
    ensures var end, ownedEnd := Min(start + maxCrop, padded.end), Min(ownedStart + step, region.end);
      before + PiecesFrom(padded, region, maxCrop, step, start, ownedStart)
      == if end >= padded.end then before + OnePiece(start, end, ownedStart, ownedEnd)
         else before + OnePiece(start, end, ownedStart, ownedEnd)
              + PiecesFrom(padded, region, maxCrop, step, start + step, ownedEnd)
  {
  }

  method SplitCrop(padded: TimeInterval, region: TimeInterval, maxCropMs: int, stitchMs: int)
    returns (windows: seq<Piece>)
    requires maxCropMs >= 1 && stitchMs >= 0
    ensures windows == Pieces(padded, region, maxCropMs, stitchMs)
  {
    if padded.Duration() <= maxCropMs {
      return [Piece(padded, region)];
    }
    var step := Max(maxCropMs - stitchMs, 1);
    var start := padded.start;
    var ownedStart := region.start;
    assert Pieces(padded, region, maxCropMs, stitchMs)
        == PiecesFrom(padded, region, maxCropMs, step, start, ownedStart);
    hide Pieces, PiecesFrom;
    windows := [];
    while start < padded.end
      invariant 0 <= start < padded.end && 0 <= ownedStart
      invariant Pieces(padded, region, maxCropMs, stitchMs)
             == windows + PiecesFrom(padded, region, maxCropMs, step, start, ownedStart)
      decreases padded.end - start
    {
      var end := Min(start + maxCropMs, padded.end);
      var ownedEnd := Min(ownedStart + step, region.end);
      ghost var before := windows;
      if ownedEnd > ownedStart {
        windows := windows + [Piece(Interval(start, end), Interval(ownedStart, ownedEnd))];
      }
      assert windows == before + OnePiece(start, end, ownedStart, ownedEnd);
      NextPiece(before, padded, region, maxCropMs, step, start, ownedStart);
      if end >= padded.end {
        break;
      }
      start := start + step;
      ownedStart := ownedEnd;
    }
  }

  // ---- The owned slices -------------------------------------------------------------------

  function Owned(pieces: seq<Piece>): (r: seq<TimeInterval>)
    ensures |r| == |pieces|
    ensures forall i :: 0 <= i < |r| ==> r[i] == pieces[i].owned
  {
    if pieces == [] then [] else [pieces[0].owned] + Owned(pieces[1..])
  }

  /** Consecutive slices from `from` up to `to`, none empty. */
  ghost predicate Tiles(s: seq<TimeInterval>, from: int, to: int) {
    if s == [] then from == to
    else s[0].start == from && Tiles(s[1..], s[0].end, to)
  }

  /** How far the slices reach. */
  function Reach(s: seq<TimeInterval>, from: int): int {
    if s == [] then from else s[|s| - 1].end
  }

  /** How often the loop body runs. */
  function WindowCount(duration: int, maxCrop: int, step: int): (n: nat)
    requires 1 <= step <= maxCrop && duration >= 1
    ensures n >= 1
    decreases duration
  {
    if duration <= maxCrop then 1 else 1 + WindowCount(duration - step, maxCrop, step)
  }

  /** In closed form: one window, and one more for every started step beyond it. */
  lemma {:induction false} WindowCountClosed(duration: int, maxCrop: int, step: int)
    requires 1 <= step <= maxCrop <= duration
    ensures WindowCount(duration, maxCrop, step) == 1 + (duration - maxCrop + step - 1) / step
    decreases duration
  {
    if duration - step >= maxCrop {
      WindowCountClosed(duration - step, maxCrop, step);
      DivStep(duration - maxCrop + step - 1, step);
    } else if duration > maxCrop {
      DivStep(duration - maxCrop + step - 1, step);
    }
  }

  lemma DivStep(x: int, d: int)
    requires 1 <= d <= x
    ensures x / d == (x - d) / d + 1
    ensures x < 2 * d ==> x / d == 1
  {
    FloorBounds(x, d);
    FloorBounds(x - d, d);
    var q := (x - d) / d;
    assert d * (q + 1) == d * q + d;
    FloorUnique(d, x / d, q + 1, x);
    if x < 2 * d {
      FloorUnique(d, x / d, 1, x);
    }
  }

  /** The slices tile the region as far as the windows reach. */
  lemma {:induction false} PiecesReach(padded: TimeInterval, region: TimeInterval, maxCrop: int, step: int,
                                       start: int, ownedStart: int)
    requires 1 <= step <= maxCrop && 0 <= start < padded.end && 0 <= ownedStart <= region.end
    ensures var r := Owned(PiecesFrom(padded, region, maxCrop, step, start, ownedStart));
      Tiles(r, ownedStart,
            Min(ownedStart + WindowCount(padded.end - start, maxCrop, step) * step, region.end))
    decreases padded.end - start
  {
    var n := WindowCount(padded.end - start, maxCrop, step);
    var ownedEnd := Min(ownedStart + step, region.end);
    var all := PiecesFrom(padded, region, maxCrop, step, start, ownedStart);
    if start + maxCrop < padded.end {
      PiecesReach(padded, region, maxCrop, step, start + step, ownedEnd);
      FirstOfProduct(n, step);
      assert n - 1 == WindowCount(padded.end - (start + step), maxCrop, step);
      hide WindowCount;
      var rest := PiecesFrom(padded, region, maxCrop, step, start + step, ownedEnd);
      if ownedEnd > ownedStart {
        assert all[1..] == rest;
      } else {
        assert all == rest;
      }
    }
  }

  lemma FirstOfProduct(n: nat, d: nat)
    requires n >= 1
    ensures n * d == (n - 1) * d + d && (n - 1) * d >= 0
  {
  }

  /** Where the tiling stops: the end of the region, or short of it. */
  function OwnedUpTo(padded: TimeInterval, region: TimeInterval, maxCrop: int, stitch: int): int
    requires maxCrop >= 1 && stitch >= 0
  {
    if padded.Duration() <= maxCrop then region.end
    else
      var step := Step(maxCrop, stitch);
      Min(region.start + (1 + (padded.Duration() - maxCrop + step - 1) / step) * step, region.end)
  }

  /** For every input the slices are consecutive from the start of the region, and reach `OwnedUpTo`. */
  lemma OwnedTilesRegion(padded: TimeInterval, region: TimeInterval, maxCrop: int, stitch: int)
    requires maxCrop >= 1 && stitch >= 0
    ensures Tiles(Owned(Pieces(padded, region, maxCrop, stitch)), region.start,
                  OwnedUpTo(padded, region, maxCrop, stitch))
  {
    if padded.Duration() > maxCrop {
      var step := Step(maxCrop, stitch);
      PiecesReach(padded, region, maxCrop, step, padded.start, region.start);
      WindowCountClosed(padded.Duration(), maxCrop, step);
    }
  }

  /** What tiling means pointwise: every point in range has exactly one slice. */
  lemma {:induction false} TilesPoints(s: seq<TimeInterval>, from: int, to: int)
    requires Tiles(s, from, to)
    ensures from <= to
    ensures Disjoint(s)
    ensures forall x :: x in s ==> from <= x.start && x.end <= to
    ensures forall p :: Covered(s, p) <==> from <= p < to
  {
    if s == [] {
      HeadCovered(s);
    } else {
      TilesPoints(s[1..], s[0].end, to);
      HeadTailCover(s);
    }
  }

  /** The region is fully owned exactly when the windows reach far enough. */
  lemma FullyOwnedIff(padded: TimeInterval, region: TimeInterval, maxCrop: int, stitch: int)
    requires maxCrop >= 1 && stitch >= 0
    ensures (forall p :: region.Contains(p) ==> Covered(Owned(Pieces(padded, region, maxCrop, stitch)), p))
      <==> (|| padded.Duration() <= maxCrop
            || var step := Step(maxCrop, stitch);
               region.Duration() <= (1 + (padded.Duration() - maxCrop + step - 1) / step) * step)
  {
    var slices := Owned(Pieces(padded, region, maxCrop, stitch));
    var upTo := OwnedUpTo(padded, region, maxCrop, stitch);
    OwnedTilesRegion(padded, region, maxCrop, stitch);
    TilesPoints(slices, region.start, upTo);
    assert upTo < region.end ==> region.Contains(upTo) && !Covered(slices, upTo);
  }

  /** With padding on both sides adding up to the stitch nothing is lost; otherwise the loss is
  at most the missing padding. */
  lemma PaddingCoversStitch(padded: TimeInterval, region: TimeInterval, maxCrop: int, stitch: int)
    requires maxCrop >= 1 && 0 <= stitch < maxCrop
    requires padded.start <= region.start && region.end <= padded.end
    ensures var left, right := region.start - padded.start, padded.end - region.end;
      region.end - OwnedUpTo(padded, region, maxCrop, stitch) <= Max(0, stitch - left - right)
  {
    if padded.Duration() > maxCrop {
      var step := Step(maxCrop, stitch);
      CeilReaches(padded.Duration() - maxCrop, step);
    }
  }

  lemma CeilReaches(x: int, d: int)
    requires d >= 1 && x >= 0
    ensures (1 + (x + d - 1) / d) * d >= x + d
  {
    var q := (x + d - 1) / d;
    assert x + d - 1 == d * q + (x + d - 1) % d;
    assert (1 + q) * d == d + d * q;
  }

  /** The retry passes the bare region as the padded interval: default sizes leave 1 s unowned. */
  lemma RetryLosesTail()
    ensures var region: TimeInterval := Interval(0, 19000);
      && OwnedUpTo(region, region, 10000, 1000) == 18000
      && !Covered(Owned(Pieces(region, region, 10000, 1000)), 18500)
  {
    hide *;
    var region: TimeInterval := Interval(0, 19000);
    RetryReaches();
    OwnedTilesRegion(region, region, 10000, 1000);
    TilesPoints(Owned(Pieces(region, region, 10000, 1000)), 0, 18000);
  }

  lemma RetryReaches()
    ensures var region: TimeInterval := Interval(0, 19000); OwnedUpTo(region, region, 10000, 1000) == 18000
  {
    assert Step(10000, 1000) == 9000 && 17999 / 9000 == 1;
    hide Step;
  }

  // ---- Windows ----------------------------------------------------------------------------

  predicate InsideWindow(piece: Piece) {
    piece.window.start <= piece.owned.start && piece.owned.end <= piece.window.end
  }

  lemma {:induction false} SlicesInsideWindows(padded: TimeInterval, region: TimeInterval, maxCrop: int, step: int,
                                               start: int, ownedStart: int)
    requires 1 <= step <= maxCrop && 0 <= start < padded.end && region.end <= padded.end
    requires start <= ownedStart
    requires ownedStart + step <= start + maxCrop || region.end <= start + maxCrop
    ensures forall x :: x in PiecesFrom(padded, region, maxCrop, step, start, ownedStart) ==>
      && InsideWindow(x)
      && padded.start <= x.window.start + (padded.start - start) && x.window.end <= padded.end
      && x.window.Duration() <= maxCrop
    decreases padded.end - start
  {
    var ownedEnd := Min(ownedStart + step, region.end);
    if start + maxCrop < padded.end && ownedEnd == ownedStart + step {
      SlicesInsideWindows(padded, region, maxCrop, step, start + step, ownedEnd);
    } else if start + maxCrop < padded.end {
      NothingLeftToOwn(padded, region, maxCrop, step, start + step, ownedEnd);
    }
  }

  lemma {:induction false} NothingLeftToOwn(padded: TimeInterval, region: TimeInterval, maxCrop: int, step: int,
                                            start: int, ownedStart: int)
    requires 1 <= step <= maxCrop && 0 <= start < padded.end && 0 <= ownedStart && region.end <= ownedStart
    ensures forall x :: x !in PiecesFrom(padded, region, maxCrop, step, start, ownedStart)
    decreases padded.end - start
  {
    if start + maxCrop < padded.end {
      NothingLeftToOwn(padded, region, maxCrop, step, start + step, Min(ownedStart + step, region.end));
    }
  }

  /** A window is as far into the padded interval as its slice is into the region, and each is as long as
  it may be. */
  predicate Along(x: Piece, start: int, end: int, ownedStart: int, ownedEnd: int, maxCrop: int, step: int) {
    && x.window.start - start == x.owned.start - ownedStart
    && x.window.end == Min(x.window.start + maxCrop, end)
    && x.owned.end == Min(x.owned.start + step, ownedEnd)
  }

  lemma {:induction false} WindowsAlong(padded: TimeInterval, region: TimeInterval, maxCrop: int, step: int,
                                        start: int, ownedStart: int)
    requires 1 <= step <= maxCrop && 0 <= start < padded.end && 0 <= ownedStart
    ensures forall x :: x in PiecesFrom(padded, region, maxCrop, step, start, ownedStart) ==>
      Along(x, start, padded.end, ownedStart, region.end, maxCrop, step)
    decreases padded.end - start
  {
    var ownedEnd := Min(ownedStart + step, region.end);
    if start + maxCrop < padded.end && ownedEnd == ownedStart + step {
      WindowsAlong(padded, region, maxCrop, step, start + step, ownedEnd);
    } else if start + maxCrop < padded.end && ownedEnd >= 0 {
      NothingLeftToOwn(padded, region, maxCrop, step, start + step, ownedEnd);
    }
  }

  /** A crop that is short enough is one window; a longer one is cut so that window and slice move along
  together, no window is longer than `maxCrop`, and only the last ones are cut short. */
  lemma WindowsMoveWithSlices(padded: TimeInterval, region: TimeInterval, maxCrop: int, stitch: int)
    requires maxCrop >= 1 && 0 <= stitch
    ensures if padded.Duration() <= maxCrop then Pieces(padded, region, maxCrop, stitch) == [Piece(padded, region)]
            else forall x :: x in Pieces(padded, region, maxCrop, stitch) ==>
              Along(x, padded.start, padded.end, region.start, region.end, maxCrop, Max(maxCrop - stitch, 1))
  {
    if padded.Duration() > maxCrop {
      WindowsAlong(padded, region, maxCrop, Step(maxCrop, stitch), padded.start, region.start);
    }
  }

  /** Each slice lies in its own window exactly when the left padding is within the stitch, or the
  region ends inside the first window. */
  lemma InsideWindowsIff(padded: TimeInterval, region: TimeInterval, maxCrop: int, stitch: int)
    requires maxCrop >= 1 && 0 <= stitch < maxCrop
    requires padded.start <= region.start && region.end <= padded.end
    ensures (forall x :: x in Pieces(padded, region, maxCrop, stitch) ==> InsideWindow(x))
      <==> region.start - padded.start <= stitch || region.end <= padded.start + maxCrop
  {
    var step := Step(maxCrop, stitch);
    if padded.Duration() > maxCrop {
      if region.start - padded.start <= stitch || region.end <= padded.start + maxCrop {
        SlicesInsideWindows(padded, region, maxCrop, step, padded.start, region.start);
      } else {
        var pieces := Pieces(padded, region, maxCrop, stitch);
        assert pieces[0] in pieces && !InsideWindow(pieces[0]);
      }
    }
  }
}
