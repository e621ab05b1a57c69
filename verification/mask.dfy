/**
 The reveal overlay painted by the draw effect: after the artwork is drawn at its
 natural size, a black rectangle `fillRect(0, top, W, H - top)` with
 `top = H * (revealed / 10)` hides everything below `top`. Coordinates are exact reals,
 an idealisation of the double-precision arithmetic the canvas receives.
 */
module Mask {
  import Game

  /** The divisor in `revealed / 10`: the reveal level at which the round is over. */
  const Levels: int := Game.MaxReveal

  /** A canvas rectangle: left edge, top edge, width, height. */
  datatype Rect = Rect(x: real, y: real, width: real, height: real)

  /** The black rectangle for a `width` x `height` canvas at reveal level `revealed`. */
  function Overlay(width: nat, height: nat, revealed: int): (m: Rect)
    ensures m.x == 0.0 && m.width == width as real
    ensures m.y + m.height == height as real
    ensures m.y * Levels as real == height as real * revealed as real
  {
    var top := height as real * (revealed as real / Levels as real);
    Rect(0.0, top, width as real, height as real - top)
  }

  /** Whether the rectangle paints the pixel whose top-left corner is (`x`, `y`). */
  predicate Covers(m: Rect, x: int, y: int) {
    m.x <= x as real < m.x + m.width && m.y <= y as real < m.y + m.height
  }

  /** Row `y` of a `height`-row canvas stays visible at reveal level `revealed`,
      stated without reals: `y` lies above `height * revealed / 10`. */
  predicate RowShown(height: nat, revealed: int, y: int) {
    y * Levels < height * revealed
  }

  /** Inside the canvas, the overlay paints exactly the rows `RowShown` excludes,
      across the full width. */
  lemma OverlayCoversIff(width: nat, height: nat, revealed: int, x: int, y: int)
    requires 0 <= x < width && 0 <= y < height
    ensures Covers(Overlay(width, height, revealed), x, y) <==> !RowShown(height, revealed, y)
  {
    var m := Overlay(width, height, revealed);
    assert m.y * 10.0 == (height * revealed) as real;
    assert (y as real) * 10.0 == (y * Levels) as real;
    assert m.y <= y as real <==> m.y * 10.0 <= y as real * 10.0;
  }

  /** For a reveal level in range the rectangle lies inside the canvas: its top edge is
      between 0 and `height`, and its height is what remains below that edge. */
  lemma OverlayInside(width: nat, height: nat, revealed: int)
    requires 0 <= revealed <= Levels
    ensures var m := Overlay(width, height, revealed);
            0.0 <= m.y <= height as real && 0.0 <= m.height <= height as real
  {
    var m := Overlay(width, height, revealed);
    assert 0 <= height * revealed <= height * Levels;
    assert m.y * 10.0 == (height * revealed) as real;
  }

  /** In every reachable state the overlay drawn for the current reveal level lies
      inside the canvas. */
  lemma ReachableOverlayInside(s: Game.State, width: nat, height: nat)
    requires Game.Inv(s)
    ensures var m := Overlay(width, height, s.revealed);
            0.0 <= m.y <= height as real && 0.0 <= m.height <= height as real
  {
    OverlayInside(width, height, s.revealed);
  }

  /** Level 0 masks the whole canvas, level 10 masks nothing. */
  lemma OverlayEnds(width: nat, height: nat)
    ensures Overlay(width, height, 0).y == 0.0
    ensures Overlay(width, height, 0).height == height as real
    ensures Overlay(width, height, Levels).height == 0.0
  {
  }

  /** Raising the reveal level never makes the mask taller. */
  lemma OverlayShrinks(width: nat, height: nat, r1: int, r2: int)
    requires r1 <= r2
    ensures Overlay(width, height, r2).height <= Overlay(width, height, r1).height
  {
    assert height * r1 <= height * r2;
    assert Overlay(width, height, r1).y * 10.0 == (height * r1) as real;
    assert Overlay(width, height, r2).y * 10.0 == (height * r2) as real;
  }

  /** `img` is a raster of `height` rows of `width` pixels each. */
  predicate IsRaster<P>(img: seq<seq<P>>, width: nat, height: nat) {
    |img| == height && forall y :: 0 <= y < height ==> |img[y]| == width
  }

  /** The canvas after the draw effect: the artwork, with every pixel the overlay
      covers painted `black`. The canvas takes the image's own size. */
  function Composite<P>(img: seq<seq<P>>, width: nat, height: nat, black: P, revealed: int)
    : (out: seq<seq<P>>)
    requires IsRaster(img, width, height)
    ensures IsRaster(out, width, height)
    ensures forall y, x :: 0 <= y < height && 0 <= x < width ==>
              out[y][x] == if RowShown(height, revealed, y) then img[y][x] else black
  {
    var m := Overlay(width, height, revealed);
    var out := seq(height, y requires 0 <= y < height =>
                 seq(width, x requires 0 <= x < width =>
                   if Covers(m, x, y) then black else img[y][x]));
    assert forall y, x :: 0 <= y < height && 0 <= x < width ==>
             out[y][x] == if RowShown(height, revealed, y) then img[y][x] else black
    by {
      forall y, x | 0 <= y < height && 0 <= x < width
        ensures out[y][x] == if RowShown(height, revealed, y) then img[y][x] else black
      {
        OverlayCoversIff(width, height, revealed, x, y);
      }
    }
    out
  }

  /** At the top level the artwork is shown untouched; at level 0 it is all black. */
  lemma CompositeEnds<P>(img: seq<seq<P>>, width: nat, height: nat, black: P)
    requires IsRaster(img, width, height)
    ensures Composite(img, width, height, black, Levels) == img
    ensures forall y, x :: 0 <= y < height && 0 <= x < width ==>
              Composite(img, width, height, black, 0)[y][x] == black
  {
    var full := Composite(img, width, height, black, Levels);
    forall y | 0 <= y < height ensures full[y] == img[y] {
      assert RowShown(height, Levels, y);
    }
  }

  /** A pixel shown at one level is shown at every higher level. */
  lemma CompositeRevealGrows<P>(img: seq<seq<P>>, width: nat, height: nat, black: P,
                                r1: int, r2: int, x: int, y: int)
    requires IsRaster(img, width, height)
    requires r1 <= r2 && 0 <= y < height && 0 <= x < width
    requires RowShown(height, r1, y)
    ensures Composite(img, width, height, black, r2)[y][x] == img[y][x]
  {
    assert height * r1 <= height * r2;
  }
}
