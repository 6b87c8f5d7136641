/** Placement of squares on screen: the offset of a position's top-left
    corner from the board's top-left corner, in pixels or in percent, for
    either orientation, and the pixel centre of the square a key names. */
module Transform {
  import opened Types
  import opened Codec

  /** The offset of a position's square: `xFactor` and `yFactor` are the size
      of one square.  Seen from white, file 1 is at the left and the highest
      rank at the top; seen from black, the board is turned half a turn. */
  function PosToTranslateBase(pos: Pos, asWhite: bool, xFactor: real, yFactor: real, bt: BoardDimensions): NumberPair
  {
    NumberPair(
      Scale(if asWhite then pos.file - 1 else bt.width - pos.file, xFactor),
      Scale(if asWhite then bt.height - pos.rank else pos.rank - 1, yFactor))
  }

  /** `n` squares of size `factor`. */
  function Scale(n: int, factor: real): real
  {
    n as real * factor
  }

  /** A square seen from white sits where the point-reflected square sits
      seen from black. */
  lemma TranslateOrientationSymmetry(pos: Pos, xFactor: real, yFactor: real, bt: BoardDimensions)
    ensures PosToTranslateBase(pos, true, xFactor, yFactor, bt)
         == PosToTranslateBase(Pos(bt.width + 1 - pos.file, bt.height + 1 - pos.rank), false, xFactor, yFactor, bt)
  {
  }

  /** Multiplying by a non-negative factor keeps 0 <= n <= m. */
  lemma {:induction false} ScaleWithin(n: int, m: int, factor: real)
    requires 0 <= n <= m && factor >= 0.0
    ensures 0.0 <= Scale(n, factor) <= Scale(m, factor)
    decreases m
  {
    if n < m {
      ScaleWithin(n, m - 1, factor);
      assert m as real * factor == (m - 1) as real * factor + factor;
    } else if n > 0 {
      ScaleWithin(n - 1, n - 1, factor);
      assert n as real * factor == (n - 1) as real * factor + factor;
    }
  }

  /** The offset of a square on the board lies between the top-left corner
      and the top-left corner of the opposite square, in both orientations. */
  lemma TranslateWithinBoard(pos: Pos, asWhite: bool, xFactor: real, yFactor: real, bt: BoardDimensions)
    requires 1 <= pos.file <= bt.width && 1 <= pos.rank <= bt.height
    requires xFactor >= 0.0 && yFactor >= 0.0
    ensures var o := PosToTranslateBase(pos, asWhite, xFactor, yFactor, bt);
            0.0 <= o.x <= Scale(bt.width - 1, xFactor) &&
            0.0 <= o.y <= Scale(bt.height - 1, yFactor)
  {
    ScaleWithin(if asWhite then pos.file - 1 else bt.width - pos.file, bt.width - 1, xFactor);
    ScaleWithin(if asWhite then bt.height - pos.rank else pos.rank - 1, bt.height - 1, yFactor);
  }

  /** Scaling a number of squares by 100 / n percent and then by w / 100
      pixels per percent is scaling it by w / n pixels. */
  lemma PercentToPixels(c: real, n: real, w: real)
    requires n != 0.0
    ensures c * (100.0 / n) * (w / 100.0) == c * (w / n)
  {
    calc {
      c * (100.0 / n) * (w / 100.0);
      c * ((100.0 / n) * (w / 100.0));
      { assert (100.0 / n) * (w / 100.0) == w / n; }
      c * (w / n);
    }
  }

  /** Offsets in percent of the board; the board needs at least one file and one rank. */
  function PosToTranslateRel(pos: Pos, asWhite: bool, bt: BoardDimensions): (o: NumberPair)
    requires bt.width > 0 && bt.height > 0
    ensures 1 <= pos.file <= bt.width && 1 <= pos.rank <= bt.height ==>
              0.0 <= o.x < 100.0 && 0.0 <= o.y < 100.0
  {
    var o := PosToTranslateBase(pos, asWhite, 100.0 / bt.width as real, 100.0 / bt.height as real, bt);
    if 1 <= pos.file <= bt.width && 1 <= pos.rank <= bt.height then
      TranslateWithinBoard(pos, asWhite, 100.0 / bt.width as real, 100.0 / bt.height as real, bt);
      PercentBelowHundred(bt.width);
      PercentBelowHundred(bt.height);
      o
    else
      o
  }

  /** n - 1 squares of 100 / n percent each stay below 100 percent. */
  lemma PercentBelowHundred(n: int)
    requires n > 0
    ensures (n - 1) as real * (100.0 / n as real) < 100.0
  {
    assert (n - 1) as real * (100.0 / n as real) == 100.0 - 100.0 / n as real;
  }

  /** The pixel placement for a bounding rectangle: the square size is
      computed once and the returned function places any position.  Its
      offsets are the percent offsets scaled by the rectangle's size. */
  function PosToTranslateAbs(bounds: Rect, bt: BoardDimensions): (place: (Pos, bool) -> NumberPair)
    requires bt.width > 0 && bt.height > 0
    ensures forall pos, asWhite ::
              place(pos, asWhite).x == PosToTranslateRel(pos, asWhite, bt).x * (bounds.width / 100.0) &&
              place(pos, asWhite).y == PosToTranslateRel(pos, asWhite, bt).y * (bounds.height / 100.0)
  {
    var xFactor := bounds.width / bt.width as real;
    var yFactor := bounds.height / bt.height as real;
    var place := (pos: Pos, asWhite: bool) => PosToTranslateBase(pos, asWhite, xFactor, yFactor, bt);
    assert forall pos, asWhite ::
             place(pos, asWhite).x == PosToTranslateRel(pos, asWhite, bt).x * (bounds.width / 100.0) &&
             place(pos, asWhite).y == PosToTranslateRel(pos, asWhite, bt).y * (bounds.height / 100.0) by {
      forall pos: Pos, asWhite: bool
        ensures place(pos, asWhite).x == PosToTranslateRel(pos, asWhite, bt).x * (bounds.width / 100.0)
        ensures place(pos, asWhite).y == PosToTranslateRel(pos, asWhite, bt).y * (bounds.height / 100.0)
      {
        var b := PosToTranslateBase(pos, asWhite, 1.0, 1.0, bt);
        PercentToPixels(b.x, bt.width as real, bounds.width);
        PercentToPixels(b.y, bt.height as real, bounds.height);
      }
    }
    place
  }

  /** The centre, along one axis of length `size` starting at `origin`, of
      cell `cell` of eight: `cell` eighths and a further sixteenth along. */
  function CellCenter(origin: real, size: real, cell: int): real
  {
    origin + (size * cell as real) / 8.0 + size / 16.0
  }

  /** The centre of cell `cell` lies 2 cell + 1 sixteenths along the axis. */
  lemma CellCenterSixteenths(origin: real, size: real, cell: int)
    ensures CellCenter(origin, size, cell) == origin + Scale(2 * cell + 1, size) / 16.0
  {
    assert Scale(2 * cell + 1, size) == 2.0 * (size * cell as real) + size;
  }

  /** The centre of one of the eight cells lies on the axis. */
  lemma CellCenterWithin(origin: real, size: real, cell: int)
    requires size >= 0.0 && 0 <= cell <= 7
    ensures origin <= CellCenter(origin, size, cell) <= origin + size
  {
    SixteenthsWithin(size, 2 * cell + 1);
    CellCenterSixteenths(origin, size, cell);
  }

  /** The centres of cell `cell` and of cell `7 - cell` lie symmetrically
      about the middle of the axis. */
  lemma CellCenterMirror(origin: real, size: real, cell: int)
    ensures CellCenter(origin, size, cell) + CellCenter(origin, size, 7 - cell) == 2.0 * origin + size
  {
    CellCenterSixteenths(origin, size, cell);
    CellCenterSixteenths(origin, size, 7 - cell);
    assert Scale(2 * cell + 1, size) + Scale(2 * (7 - cell) + 1, size) == size * 16.0;
  }

  /** Between none and sixteen sixteenths of a non-negative w lie between 0 and w. */
  lemma SixteenthsWithin(w: real, k: int)
    requires w >= 0.0 && 0 <= k <= 16
    ensures 0.0 <= Scale(k, w) / 16.0 <= w
  {
    ScaleWithin(k, 16, w);
  }

  /** The pixel centre of the square a key names, on a grid of 8 x 8 squares
      whatever the board's dimensions: seen from white, the decoded file
      counts columns from the left and the decoded rank rows from the
      bottom; seen from black, both count from the opposite side. */
  function SquareCenter(key: string, asWhite: bool, bounds: Rect): NumberPair
    requires |key| >= 2
  {
    var p := Key2Pos(key);
    NumberPair(CellCenter(bounds.left, bounds.width, if asWhite then p.file else 7 - p.file),
               CellCenter(bounds.top, bounds.height, if asWhite then 7 - p.rank else p.rank))
  }

  /** Computes the centre of a key's square: decodes the key into a two-cell
      array, turns it half a turn in place when seen from black, and applies
      the per-axis formula of `CellCenter` to the column and to 7 - row. */
  method ComputeSquareCenter(key: string, asWhite: bool, bounds: Rect) returns (c: NumberPair)
    requires |key| >= 2
    ensures c == SquareCenter(key, asWhite, bounds)
  {
    var decoded := Key2Pos(key);
    var pos := new int[2];
    pos[0], pos[1] := decoded.file, decoded.rank;
    if !asWhite {
      pos[0] := 7 - pos[0];
      pos[1] := 7 - pos[1];
    }
    c := NumberPair(CellCenter(bounds.left, bounds.width, pos[0]),
                    CellCenter(bounds.top, bounds.height, 7 - pos[1]));
  }

  /** The centres of a key's square seen from white and from black are
      mirror images through the centre of the rectangle. */
  lemma SquareCenterMirror(key: string, bounds: Rect)
    requires |key| >= 2
    ensures SquareCenter(key, true, bounds).x + SquareCenter(key, false, bounds).x == 2.0 * bounds.left + bounds.width
    ensures SquareCenter(key, true, bounds).y + SquareCenter(key, false, bounds).y == 2.0 * bounds.top + bounds.height
  {
    var p := Key2Pos(key);
    CellCenterMirror(bounds.left, bounds.width, p.file);
    CellCenterMirror(bounds.top, bounds.height, p.rank);
  }

  /** A key whose decoded file and rank are both in 0 .. 7 has its centre
      inside the rectangle. */
  lemma SquareCenterInside(key: string, asWhite: bool, bounds: Rect)
    requires |key| >= 2
    requires 0 <= Key2Pos(key).file <= 7 && 0 <= Key2Pos(key).rank <= 7
    requires bounds.width >= 0.0 && bounds.height >= 0.0
    ensures var c := SquareCenter(key, asWhite, bounds);
            bounds.left <= c.x <= bounds.left + bounds.width &&
            bounds.top <= c.y <= bounds.top + bounds.height
  {
    var p := Key2Pos(key);
    CellCenterWithin(bounds.left, bounds.width, if asWhite then p.file else 7 - p.file);
    CellCenterWithin(bounds.top, bounds.height, if asWhite then 7 - p.rank else p.rank);
  }

  /** On an 800 x 800 rectangle at the origin, the square of key "a1" seen
      from white is centred at (150, 650): "a1" decodes to (1, 1). */
  lemma SquareCenterOfA1()
    ensures Key2Pos("a1") == Pos(1, 1)
    ensures SquareCenter("a1", true, Rect(0.0, 0.0, 800.0, 800.0)) == NumberPair(150.0, 650.0)
  {
  }
}
