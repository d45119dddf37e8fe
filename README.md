# Image resize-and-crop tool: crop geometry in Dafny

The tool (`bild_tool.py`) takes an uploaded photo and a target size. The size is either a preset
(web, Instagram post or story, YouTube thumbnail, Facebook cover) or a custom width and height in
[100, 5000]. The photo is scaled proportionally so that it covers the target ("cover-fit"). Two
sliders then place a crop box of the target size in the scaled photo (it lies inside the photo
with exact arithmetic; see below). The crop is
JPEG-compressed at a quality in [10, 100] and offered for download as `bild_{w}x{h}_q{q}.jpg`.

This project models the arithmetic behind those steps as pure functions and proves the following:

- the scaled photo covers the target;
- the slider bounds are the overshoot on each axis;
- the crop box has exactly the target size and lies inside the scaled photo;
- the download name records the size and quality and gives them back.

Modules:

- `CropGeometry` (`geometry.dfy`): the preset table, target-size selection, cover-fit scaling, slider
  bounds, offsets, the crop box, and `PlanCrop`, which composes the scaling, the slider bounds, the
  offsets and the crop box for a given target.
- `Download` (`download.dfy`): the download file name and a reader that recovers its parameters.
- `Decimal` (`decimal.dfy`): how Python writes an `int` in an f-string (decimal, no leading zeros),
  and the matching reader.
- `Wrappers` (`wrappers.dfy`): `Option`.

Modelling decisions:

- **Exact arithmetic instead of floats.** The source compares `W / H > w / h` and truncates
  `int(W / H * h)` and `int(w / (W / H))` in IEEE doubles. The model compares `W * h > w * H` and
  computes `(W * h) / H` and `(w * H) / W` as floor divisions of integers. For positive operands,
  Python's `int()` truncation and floor agree. `OriginalWiderIsRatioComparison` and
  `ScaledSizeIsTruncatedRatio` prove that the exact forms equal the real-number ratios the code
  writes. Under doubles, the source's free side can be one pixel shorter than the model's. This
  happens whenever the exact proportional length (`W * h / H` or `w * H / W`) is a whole number and
  the rounded double lands just below it. Take a 290x1000 photo and a 100x400 target. The wider
  branch runs, and `0.29 * 400` in doubles is 115.99999999999999. Line 42 gives 115 where
  `ScaledSize` gives 116, so the horizontal slider bound is 15 instead of 16. Without a tie, that
  shorter side still covers the target: a whole-number exact side that beats the target is at least
  one pixel over it. Only an exact tie between the two ratios pushes the source below the target.
  There the strict comparison at line 40 fails and the width is pinned. Line 45 can then truncate
  the height to `h - 1`. With a 1100x1000 photo and a 1100x1000 target, `1100 / 1.1` in doubles is
  just under 1000, so the height is 999. The vertical slider bound is then 0, and the crop box is
  one row taller than the scaled photo. The model's exact lengths, and the cover-fit and
  containment lemmas, hold for exact arithmetic only.
- **Inputs come from widgets.** The number inputs hold the custom size in [100, 5000]. Each slider
  holds its offset in [0, bound]. The quality slider holds the quality in [10, 100]. These ranges
  are `requires` clauses. They are not error paths, because the widgets never deliver anything
  outside them.
- **No error for non-positive sizes.** The code does not reject non-positive sizes, and the model
  adds no such error. A positive original size is a `requires`, because the image library only
  yields images with positive sizes. Every target size is positive by construction, as
  `TargetSize` proves.
- **Clamping is a reference, not a step.** The code takes the slider's value without clamping it.
  The slider only offers [0, bound], so the offset equals `min(max(0, x), bound)` for a requested
  position `x`. `Clamp` is that reference definition, and `OffsetIsClamp` shows that the two agree.

## Model

| member | source | states |
|---|---|---|
| `CropGeometry.Preset` | bild_tool.py:16-22 | every preset size is positive and lies within the custom-size bounds [100, 5000] |
| `CropGeometry.TargetSize` | bild_tool.py:24-31 | the target is the custom size when the box is ticked and the chosen preset otherwise; it is always positive and within [100, 5000] on both axes |
| `CropGeometry.ScaledSize` | bild_tool.py:37-45 | if the original is wider, the height is the target height; otherwise the width is the target width. The other side is the floor of the proportional length: the largest whole number of pixels that does not exceed the original's aspect ratio |
| `CropGeometry.OriginalWiderIsRatioComparison` | bild_tool.py:37-40 | the cross-multiplied comparison `W*h > w*H` holds exactly when `W/H > w/h` over the reals |
| `CropGeometry.ScaledSizeIsTruncatedRatio` | bild_tool.py:40-45 | the free side equals `floor(W/H * h)` in the wider branch and `floor(w / (W/H))` otherwise, computed over the reals |
| `CropGeometry.CoverFit` | bild_tool.py:37-45 | the scaled size is at least the target on both axes and equals it on at least one |
| `CropGeometry.SameRatioScalesToTarget` | bild_tool.py:40-45 | when the two aspect ratios are exactly equal, the photo is scaled to exactly the target size |
| `CropGeometry.OffsetBounds` | bild_tool.py:50-51 | each bound is non-negative and at least the overshoot; it is 0 or exactly the overshoot |
| `CropGeometry.BoundsAreOvershoot` | bild_tool.py:37-51 | after cover-fit scaling, each bound is exactly the scaled length minus the target length |
| `CropGeometry.CustomDefaultsInRange` | bild_tool.py:28-29 | the custom inputs' starting values 1200 and 800 lie within [100, 5000] |
| `CropGeometry.Offset` | bild_tool.py:53-61 | the offset is 0 when its bound is 0, and otherwise the slider value in [0, bound] |
| `CropGeometry.Clamp` | bild_tool.py:53-61 | reference clamp into [lo, hi]: the result is in range, in-range values pass unchanged, and values outside go to the nearer end |
| `CropGeometry.OffsetIsClamp` | bild_tool.py:53-61 | for every value the slider can deliver, the offset equals that value clamped into [0, bound] |
| `CropGeometry.CropRect` | bild_tool.py:64-67 | the box starts at the offset and is exactly target width wide and target height high |
| `CropGeometry.CropInside` | bild_tool.py:50-68 | for every pair of offsets within the slider bounds, the crop box lies inside the scaled photo |
| `CropGeometry.PlanCrop` | bild_tool.py:37-67 | for any slider values within range: the scaled size is `ScaledSize` of the photo and target; each offset is the slider value, or 0 when its bound is 0; the crop box starts at the offset; the scaled photo covers the target, the bounds are the overshoot, an axis with bound 0 has offset 0, and the crop box has the target size and lies inside the scaled photo |
| `CropGeometry.WorkedExamples` | bild_tool.py:37-61 | 800x600 for the web preset scales to 1200x900 with bounds (0, 100); 2000x1000 for the square post scales to 2160x1080; a request of 150 clamps to 100 |
| `Decimal.NatToString` | bild_tool.py:95 | an integer in an f-string is written as a non-empty string of digits with no leading zero |
| `Decimal.ValueOfNatToString` | bild_tool.py:95 | the digits written for a number denote that number |
| `Decimal.ReadNumberRoundTrip` | bild_tool.py:95 | reading a number back from its digits followed by a non-digit recovers the number and the text after it |
| `Download.DefaultQualityInRange` | bild_tool.py:72 | the quality slider's starting value 85 lies within [10, 100] |
| `Download.FileName` | bild_tool.py:72-95 | for a quality from the slider in [10, 100], the name begins with `bild_` and ends with `.jpg` |
| `Download.ParseFileName` | bild_tool.py:95 | anything the reader accepts begins with `bild_` |
| `Download.FileNameRoundTrip` | bild_tool.py:95 | reading a download name gives back the width, height and quality it was made from |
| `Download.FileNameInjective` | bild_tool.py:95 | two different (width, height, quality) triples never share a download name |

## Left out

- Streamlit UI: page setup, uploader, selection box, check boxes, sliders and number inputs as
  widgets, image previews, the download button and the sidebar instructions. Only the widgets'
  ranges enter the model, as preconditions. The widget defaults (1200 x 800 custom size, quality 85) are kept as constants.
- The preset labels (`"Web (1200x800)"` and so on) are the keys of the preset table. They are
  modelled as the constructors of `Format`; their text is display only.
- PIL calls: open and convert, resize, crop, the red frame drawn on the preview, and the JPEG
  encoding. These are foreign code. The frame at line 81 has the crop box's corners, so
  `CropRect` covers its geometry.
- The in-memory buffer and the displayed size estimate `len(...) / 1024` are I/O and float
  display.
- IEEE-754 rounding of the two ratios: replaced by exact arithmetic. Under "Exact arithmetic
  instead of floats" above: the source's free side can be one pixel short whenever the exact
  length is whole, and it falls below the target only at an exact tie.
- No upload yet: the source skips all geometry until a file is present. That is a UI condition,
  not a computation.
