/** The geometry of `ExcelSKULoader.resize_and_pad` (nodes.py:348-375) and of
    the common canvas of a group (nodes.py:283-284). The source scales with a
    floating-point ratio; here the ratio is the exact fraction, and the
    truncating `int(...)` is the floor of that fraction. Only sizes and
    offsets are modelled, not pixels. */
module Geometry {
  import opened ImageCache

  /** Where a scaled image lands on the white canvas: its scaled size and the
      top-left corner it is pasted at. */
  datatype Placement = Placement(width: nat, height: nat, x: nat, y: nat)

  /** `target_width / w <= target_height / h`: the width is the side that
      limits the scale (on a tie the width ratio is the one `min` picks). */
  predicate WidthLimited(w: Pos, h: Pos, tw: Pos, th: Pos) {
    tw * h <= th * w
  }

  /** Euclidean division of naturals is the floor: `a / d` is the largest
      multiple count of `d` not above `a`. */
  lemma DivBounds(a: nat, d: Pos)
    ensures (a / d) * d <= a < (a / d + 1) * d
  {
  }

  lemma MulMono(x: int, y: int, k: nat)
    requires x <= y
    ensures x * k <= y * k
  {
  }

  /** Cancelling a positive factor on both sides of `<=` and of `<`. */
  lemma CancelFactor(x: int, y: int, d: Pos)
    requires x * d <= y * d
    ensures x <= y
  {
  }

  lemma CancelFactorStrict(x: int, y: int, d: Pos)
    requires x * d < y * d
    ensures x < y
  {
  }

  /** `x <= b / d` whenever `x * d <= b`. */
  lemma AtMostQuotient(x: int, b: nat, d: Pos)
    requires x * d <= b
    ensures x <= b / d
  {
    DivBounds(b, d);
    CancelFactor(x, b / d + 1, d);
  }

  /** `a / d <= b` whenever `a <= b * d`. */
  lemma DivAtMost(a: nat, b: nat, d: Pos)
    requires a <= b * d
    ensures a / d <= b
  {
    DivBounds(a, d);
    CancelFactor(a / d, b, d);
  }

  /** Floors of fractions are monotone: `a / d1 <= b / d2` whenever the exact
      fractions are so ordered. */
  lemma FloorMonotone(a: nat, d1: Pos, b: nat, d2: Pos)
    requires a * d2 <= b * d1
    ensures a / d1 <= b / d2
  {
    var q := a / d1;
    DivBounds(a, d1);
    MulMono(q * d1, a, d2);
    assert (q * d2) * d1 <= b * d1;
    CancelFactor(q * d2, b, d1);
    AtMostQuotient(q, b, d2);
  }

  /** The scaled length of the side that does not limit the scale: the
      truncated `a / d`, which fits in `t` when `a <= t * d`. */
  function ScaledSide(a: nat, d: Pos, t: nat): (n: nat)
    requires a <= t * d
    ensures n <= t && n * d <= a < (n + 1) * d
  {
    var q := a / d;
    FloorFits(a, d, t);
    q
  }

  lemma FloorFits(a: nat, d: Pos, t: nat)
    requires a <= t * d
    ensures a / d <= t && (a / d) * d <= a < (a / d + 1) * d
  {
    DivAtMost(a, t, d);
    DivBounds(a, d);
  }

  /** The near-side offset of a length `n` centred in `t`: half the slack,
      rounded down, so the far side gets the odd pixel. */
  function CentreOffset(n: nat, t: nat): (x: nat)
    requires n <= t
    ensures x + n <= t && (t - x - n) - x in {0, 1}
  {
    (t - n) / 2
  }

  /** `resize_and_pad(img, tw, th)` for a `w`x`h` image: scale by the smaller
      of the two ratios, truncate the scaled size, and centre the result on a
      `tw`x`th` canvas (floor halves, so an odd slack leaves the extra pixel on
      the right or at the bottom). The limiting side fills the canvas exactly;
      the other one is the floor of its exact scaled length. */
  function ResizeAndPad(w: Pos, h: Pos, tw: Pos, th: Pos): (p: Placement)
    ensures p.x + p.width <= tw && p.y + p.height <= th
    ensures (tw - p.x - p.width) - p.x in {0, 1}
    ensures (th - p.y - p.height) - p.y in {0, 1}
    ensures WidthLimited(w, h, tw, th) ==>
      p.width == tw && p.height * w <= h * tw < (p.height + 1) * w
    ensures !WidthLimited(w, h, tw, th) ==>
      p.height == th && p.width * h <= w * th < (p.width + 1) * h
  {
    if WidthLimited(w, h, tw, th) then
      var nh := ScaledSide(h * tw, w, th);
      Placement(tw, nh, 0, CentreOffset(nh, th))
    else
      var nw := ScaledSide(w * th, h, tw);
      Placement(nw, th, CentreOffset(nw, tw), 0)
  }

  /** The scale the source picks is the largest that fits: for any scale
      `num / den` at which the image fits the canvas, the placed size is at
      least the truncated size at that scale. */
  lemma LargestFit(w: Pos, h: Pos, tw: Pos, th: Pos, num: nat, den: Pos)
    requires w * num <= tw * den && h * num <= th * den
    ensures var p := ResizeAndPad(w, h, tw, th);
      w * num / den <= p.width && h * num / den <= p.height
  {
    var p := ResizeAndPad(w, h, tw, th);
    if WidthLimited(w, h, tw, th) {
      DivAtMost(w * num, tw, den);
      MulMono(w * num, tw * den, h);
      assert (h * num) * w <= (h * tw) * den;
      FloorMonotone(h * num, den, h * tw, w);
    } else {
      DivAtMost(h * num, th, den);
      MulMono(h * num, th * den, w);
      assert (w * num) * h <= (w * th) * den;
      FloorMonotone(w * num, den, w * th, h);
    }
  }

  /** An image no larger than the canvas is never shrunk; in particular
      neither scaled side is zero. */
  lemma ScaleAtLeastOne(w: Pos, h: Pos, tw: Pos, th: Pos)
    requires w <= tw && h <= th
    ensures var p := ResizeAndPad(w, h, tw, th);
      w <= p.width && h <= p.height
  {
    LargestFit(w, h, tw, th, 1, 1);
  }

  /** An image with the canvas's aspect ratio fills it exactly. */
  lemma SameAspectFills(w: Pos, h: Pos, tw: Pos, th: Pos)
    requires tw * h == th * w
    ensures ResizeAndPad(w, h, tw, th) == Placement(tw, th, 0, 0)
  {
    var p := ResizeAndPad(w, h, tw, th);
    assert WidthLimited(w, h, tw, th);
    assert p.height * w <= th * w < (p.height + 1) * w;
    CancelFactor(p.height, th, w);
    CancelFactorStrict(th, p.height + 1, w);
  }

  /** `max(...)` of a non-empty list of sizes. */
  function SeqMax(xs: seq<Pos>): (m: Pos)
    requires |xs| > 0
    ensures forall i :: 0 <= i < |xs| ==> xs[i] <= m
    ensures exists i :: 0 <= i < |xs| && xs[i] == m
  {
    if |xs| == 1 then xs[0]
    else
      var m := SeqMax(xs[1..]);
      assert forall i :: 1 <= i < |xs| ==> xs[i] == xs[1..][i - 1];
      if xs[0] >= m then xs[0] else m
  }

  function Widths(images: seq<Image>): (ws: seq<Pos>)
    ensures |ws| == |images| && forall i :: 0 <= i < |images| ==> ws[i] == images[i].width
  {
    seq(|images|, i requires 0 <= i < |images| => images[i].width)
  }

  function Heights(images: seq<Image>): (hs: seq<Pos>)
    ensures |hs| == |images| && forall i :: 0 <= i < |images| ==> hs[i] == images[i].height
  {
    seq(|images|, i requires 0 <= i < |images| => images[i].height)
  }

  /** The common size of a group's batch: the widest width and the tallest
      height over the group's downloaded images (which need not belong to the
      same image). */
  function Canvas(images: seq<Image>): (c: Image)
    requires |images| > 0
    ensures forall i :: 0 <= i < |images| ==> images[i].width <= c.width && images[i].height <= c.height
    ensures exists i :: 0 <= i < |images| && images[i].width == c.width
    ensures exists i :: 0 <= i < |images| && images[i].height == c.height
  {
    var ws := Widths(images);
    var hs := Heights(images);
    var cw := SeqMax(ws);
    var ch := SeqMax(hs);
    var iw :| 0 <= iw < |ws| && ws[iw] == cw;
    var ih :| 0 <= ih < |hs| && hs[ih] == ch;
    assert images[iw].width == cw && images[ih].height == ch;
    Image(cw, ch)
  }

  /** Every image of a group, placed on the group's canvas, keeps at least
      its own size and stays inside the canvas: the batch never shrinks an
      image and never crops one. */
  lemma GroupNeverShrinks(images: seq<Image>, i: nat)
    requires 0 <= i < |images|
    ensures var c := Canvas(images);
      var p := ResizeAndPad(images[i].width, images[i].height, c.width, c.height);
      && images[i].width <= p.width && images[i].height <= p.height
      && p.x + p.width <= c.width && p.y + p.height <= c.height
  {
    var c := Canvas(images);
    ScaleAtLeastOne(images[i].width, images[i].height, c.width, c.height);
  }

  /** A 100x200 image and a 300x150 image share a 300x200 canvas; the first
      is height-limited and centred horizontally, the second width-limited and
      centred vertically. */
  lemma TwoImageCanvas()
    ensures Canvas([Image(100, 200), Image(300, 150)]) == Image(300, 200)
    ensures ResizeAndPad(100, 200, 300, 200) == Placement(100, 200, 100, 0)
    ensures ResizeAndPad(300, 150, 300, 200) == Placement(300, 150, 0, 25)
  {
    var images := [Image(100, 200), Image(300, 150)];
    var c := Canvas(images);
    assert c.width == 300 by {
      assert images[1].width == 300;
    }
    assert c.height == 200 by {
      assert images[0].height == 200;
    }
  }
}
