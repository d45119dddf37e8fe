/**
 * The scale-then-crop geometry of the image tool: the target size (a preset
 * or a custom size), the cover-fit scaling of the uploaded image, the bounds
 * of the two crop-position sliders, the offsets they yield and the crop
 * rectangle cut from the scaled image.
 *
 * The source compares and scales with floating-point ratios
 * (`W / H > w / h`, `int(W / H * h)`, `int(w / (W / H))`); here the same
 * quantities are computed exactly: the comparison by cross-multiplication and
 * the truncations as floor divisions of integer products.
 */
module CropGeometry {

  /** A width and height in pixels. */
  datatype Size = Size(width: int, height: int)

  /** A pixel position (or a pair of per-axis bounds) in the scaled image. */
  datatype Point = Point(x: int, y: int)

  /** A box (left, top, right, bottom), as the image library's crop takes it. */
  datatype Rect = Rect(left: int, top: int, right: int, bottom: int)

  predicate Positive(s: Size) {
    s.width > 0 && s.height > 0
  }

  /** The entries of the preset table, in the order the selection box lists them. */
  datatype Format = Web | InstagramPost | InstagramStory | YouTubeThumbnail | FacebookCover

  /** Bounds of the two custom-size number inputs, and their initial values. */
  const MinCustom: int := 100
  const MaxCustom: int := 5000
  const DefaultCustomWidth: int := 1200
  const DefaultCustomHeight: int := 800

  predicate InCustomRange(v: int) {
    MinCustom <= v <= MaxCustom
  }

  /** The number inputs start at 1200 x 800, a size inside their own range. */
  lemma CustomDefaultsInRange()
    ensures InCustomRange(DefaultCustomWidth) && InCustomRange(DefaultCustomHeight)
  {
  }

  /** The preset table: every entry is a size the custom inputs would also accept. */
  function Preset(f: Format): (s: Size)
    ensures Positive(s)
    ensures InCustomRange(s.width) && InCustomRange(s.height)
  {
    match f
    case Web => Size(1200, 800)
    case InstagramPost => Size(1080, 1080)
    case InstagramStory => Size(1080, 1920)
    case YouTubeThumbnail => Size(1280, 720)
    case FacebookCover => Size(1200, 630)
  }

  /**
   * The target size: the custom width and height when the custom box is
   * ticked (the number inputs only deliver values in [100, 5000]), the chosen
   * preset otherwise.
   */
  function TargetSize(choice: Format, custom: bool, width: int, height: int): (t: Size)
    requires custom ==> InCustomRange(width) && InCustomRange(height)
    ensures Positive(t)
    ensures InCustomRange(t.width) && InCustomRange(t.height)
    ensures custom ==> t == Size(width, height)
    ensures !custom ==> t == Preset(choice)
  {
    if custom then Size(width, height) else Preset(choice)
  }

  /** The original is wider than the target: `W / H > w / h`, compared exactly. */
  predicate OriginalWider(original: Size, target: Size) {
    original.width * target.height > target.width * original.height
  }

  /**
   * Cover-fit scaling. If the original is wider, the height is pinned to the
   * target height and the width is the proportional width, truncated;
   * otherwise the width is pinned and the height is the proportional height,
   * truncated. Either way the free side is the largest whole number of pixels
   * that does not exceed the original's aspect ratio along that side.
   */
  function ScaledSize(original: Size, target: Size): (s: Size)
    requires Positive(original) && Positive(target)
    ensures OriginalWider(original, target) ==>
      && s.height == target.height
      && s.width * original.height <= original.width * s.height < (s.width + 1) * original.height
    ensures !OriginalWider(original, target) ==>
      && s.width == target.width
      && s.height * original.width <= original.height * s.width < (s.height + 1) * original.width
  {
    if OriginalWider(original, target) then
      var w := original.width * target.height / original.height;
      FloorDiv(original.width * target.height, original.height);
      Size(w, target.height)
    else
      var h := target.width * original.height / original.width;
      FloorDiv(target.width * original.height, original.width);
      Size(target.width, h)
  }

  /** What floor division of non-negative integers means. */
  lemma FloorDiv(a: nat, b: int)
    requires b > 0
    ensures (a / b) * b <= a < (a / b + 1) * b
  {
  }

  /** The exact comparison decides the same as comparing the two ratios as real numbers. */
  lemma OriginalWiderIsRatioComparison(original: Size, target: Size)
    requires Positive(original) && Positive(target)
    ensures OriginalWider(original, target) <==>
      original.width as real / original.height as real > target.width as real / target.height as real
  {
    var W, H := original.width as real, original.height as real;
    var w, h := target.width as real, target.height as real;
    assert W / H - w / h == (W * h - w * H) / (H * h);
  }

  /** The free side is the truncation of the real-valued proportional side. */
  lemma ScaledSizeIsTruncatedRatio(original: Size, target: Size)
    requires Positive(original) && Positive(target)
    ensures var s := ScaledSize(original, target);
      if OriginalWider(original, target)
      then s.width == (original.width as real / original.height as real * target.height as real).Floor
      else s.height == (target.width as real / (original.width as real / original.height as real)).Floor
  {
    var s := ScaledSize(original, target);
    var W, H := original.width as real, original.height as real;
    var w, h := target.width as real, target.height as real;
    if OriginalWider(original, target) {
      var x := W / H * h;
      assert x == (original.width * target.height) as real / H;
      assert s.width as real <= x < (s.width + 1) as real;
    } else {
      var x := w / (W / H);
      assert x == (target.width * original.height) as real / W;
      assert s.height as real <= x < (s.height + 1) as real;
    }
  }

  /**
   * Cover-fit: the scaled image is at least the target size on both axes, and
   * at least one axis matches the target exactly. The strict comparison in one
   * branch and the non-strict one in the other both keep the truncated side
   * from falling below the target.
   */
  lemma CoverFit(original: Size, target: Size)
    requires Positive(original) && Positive(target)
    ensures var s := ScaledSize(original, target);
      && s.width >= target.width && s.height >= target.height
      && (s.width == target.width || s.height == target.height)
  {
    var s := ScaledSize(original, target);
    var W, H := original.width, original.height;
    if OriginalWider(original, target) {
      // W * h > w * H, so W * h >= w * H; were s.width < w, then W * h < (s.width + 1) * H <= w * H.
      if s.width < target.width {
        MulMono(s.width + 1, target.width, H);
        assert false;
      }
    } else {
      // w * H >= W * h; were s.height < h, then w * H < (s.height + 1) * W <= h * W.
      if s.height < target.height {
        MulMono(s.height + 1, target.height, W);
        assert false;
      }
    }
  }

  lemma MulMono(a: int, b: int, c: int)
    requires a <= b && c >= 0
    ensures a * c <= b * c
  {
  }

  /** When the two aspect ratios agree exactly, the image is scaled to the target size itself. */
  lemma SameRatioScalesToTarget(original: Size, target: Size)
    requires Positive(original) && Positive(target)
    requires original.width * target.height == target.width * original.height
    ensures ScaledSize(original, target) == target
  {
    var s := ScaledSize(original, target);
    CoverFit(original, target);
    assert !OriginalWider(original, target);
    if s.height > target.height {
      MulMono(target.height + 1, s.height, original.width);
      assert false;
    }
  }

  /** The slider bounds: how far the crop can move right and down, never negative. */
  function OffsetBounds(scaled: Size, target: Size): (b: Point)
    ensures b.x >= 0 && b.y >= 0
    ensures b.x >= scaled.width - target.width && b.y >= scaled.height - target.height
    ensures b.x == 0 || b.x == scaled.width - target.width
    ensures b.y == 0 || b.y == scaled.height - target.height
  {
    Point(Max(0, scaled.width - target.width), Max(0, scaled.height - target.height))
  }

  function Max(a: int, b: int): (m: int) {
    if a >= b then a else b
  }

  /** Under cover-fit the bounds are exactly the overshoot of the scaled image on each axis. */
  lemma BoundsAreOvershoot(original: Size, target: Size)
    requires Positive(original) && Positive(target)
    ensures var s := ScaledSize(original, target);
      OffsetBounds(s, target) == Point(s.width - target.width, s.height - target.height)
  {
    CoverFit(original, target);
  }

  /** A slider is shown only for a positive bound, and then delivers a value in [0, bound]. */
  predicate SliderInRange(bound: int, slider: int) {
    bound > 0 ==> 0 <= slider <= bound
  }

  /**
   * The offset along one axis: 0 when its bound is 0 (no slider is shown),
   * otherwise the slider's value, which the slider keeps in [0, bound].
   */
  function Offset(bound: int, slider: int): (o: int)
    requires bound >= 0
    requires SliderInRange(bound, slider)
    ensures 0 <= o <= bound
    ensures bound == 0 ==> o == 0
    ensures bound > 0 ==> o == slider
  {
    if bound > 0 then slider else 0
  }

  /** Clamping a requested value into [lo, hi]. */
  function Clamp(v: int, lo: int, hi: int): (c: int)
    requires lo <= hi
    ensures lo <= c <= hi
    ensures lo <= v <= hi ==> c == v
    ensures v < lo ==> c == lo
    ensures v > hi ==> c == hi
  {
    if v < lo then lo else if v > hi then hi else v
  }

  /**
   * The offset the source computes is the slider value clamped into
   * [0, bound]: for every value the slider can deliver, taking the offset and
   * clamping agree.
   */
  lemma OffsetIsClamp(bound: int, slider: int)
    requires bound >= 0 && SliderInRange(bound, slider)
    ensures Offset(bound, slider) == Clamp(slider, 0, bound)
  {
  }

  /** The crop box cut at `offset`: exactly the target size, with its top-left corner at the offset. */
  function CropRect(offset: Point, target: Size): (r: Rect)
    ensures r.left == offset.x && r.top == offset.y
    ensures r.right - r.left == target.width && r.bottom - r.top == target.height
  {
    Rect(offset.x, offset.y, offset.x + target.width, offset.y + target.height)
  }

  predicate Inside(r: Rect, s: Size) {
    0 <= r.left <= r.right <= s.width && 0 <= r.top <= r.bottom <= s.height
  }

  /** For any offsets within the slider bounds, the crop box lies inside the scaled image. */
  lemma CropInside(original: Size, target: Size, offset: Point)
    requires Positive(original) && Positive(target)
    requires var b := OffsetBounds(ScaledSize(original, target), target);
      0 <= offset.x <= b.x && 0 <= offset.y <= b.y
    ensures Inside(CropRect(offset, target), ScaledSize(original, target))
  {
    BoundsAreOvershoot(original, target);
  }

  /** The crop geometry derived from one upload, one target size and one pair of slider values. */
  datatype Plan = Plan(scaled: Size, bounds: Point, offset: Point, crop: Rect)

  /**
   * The whole geometry from the uploaded image's size to the crop box: scale,
   * take the slider bounds, read the offsets, cut. The crop box always has the
   * target size and lies inside the scaled image, and the scaled image covers
   * the target.
   */
  function PlanCrop(original: Size, target: Size, sliderX: int, sliderY: int): (p: Plan)
    requires Positive(original) && Positive(target)
    requires var b := OffsetBounds(ScaledSize(original, target), target);
      SliderInRange(b.x, sliderX) && SliderInRange(b.y, sliderY)
    ensures p.scaled.width >= target.width && p.scaled.height >= target.height
    ensures p.bounds == Point(p.scaled.width - target.width, p.scaled.height - target.height)
    ensures p.bounds.x == 0 ==> p.offset.x == 0
    ensures p.bounds.y == 0 ==> p.offset.y == 0
    ensures p.crop.right - p.crop.left == target.width && p.crop.bottom - p.crop.top == target.height
    ensures Inside(p.crop, p.scaled)
    ensures p.scaled == ScaledSize(original, target)
    ensures p.offset == Point(if p.bounds.x > 0 then sliderX else 0, if p.bounds.y > 0 then sliderY else 0)
    ensures p.crop.left == p.offset.x && p.crop.top == p.offset.y
  {
    var scaled := ScaledSize(original, target);
    var bounds := OffsetBounds(scaled, target);
    var offset := Point(Offset(bounds.x, sliderX), Offset(bounds.y, sliderY));
    CoverFit(original, target);
    Plan(scaled, bounds, offset, CropRect(offset, target))
  }

  /**
   * Worked cases: an 800x600 photo for the web preset is scaled to 1200x900
   * and can move 100 pixels down; a 2000x1000 photo for the square post is
   * scaled to 2160x1080; a request to move 150 pixels down is clamped to 100.
   */
  lemma WorkedExamples()
    ensures ScaledSize(Size(800, 600), Preset(Web)) == Size(1200, 900)
    ensures ScaledSize(Size(2000, 1000), Preset(InstagramPost)) == Size(2160, 1080)
    ensures OffsetBounds(Size(1200, 900), Preset(Web)) == Point(0, 100)
    ensures Clamp(150, 0, 100) == 100
  {
  }
}
