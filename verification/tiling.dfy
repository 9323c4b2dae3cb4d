/** Quadrant tiling of an image (`split_image`) and reassembly of four tiles
    onto a fresh canvas (`merge_images`), as pure rectangle arithmetic over a
    pixel grid. The pixel type is abstract; `fill` stands for the colour a
    freshly created canvas starts with. */
module Tiling {
  import opened Common

  /** A raster image: `pixels[y][x]` is column x of row y. The width is kept
      explicitly so that a w×0 image, which the imaging library allows and a
      split of a one-pixel-high image produces, keeps its width. */
  datatype Image<P> = Image(width: nat, height: nat, pixels: seq<seq<P>>)

  /** The grid really is `height` rows of `width` pixels each. */
  predicate Valid<P>(img: Image<P>) {
    && |img.pixels| == img.height
    && forall y :: 0 <= y < img.height ==> |img.pixels[y]| == img.width
  }

  predicate AllValid<P>(images: seq<Image<P>>) {
    forall i :: 0 <= i < |images| ==> Valid(images[i])
  }

  /** A blank canvas of the given size (`Image.new`). */
  function New<P>(width: nat, height: nat, fill: P): (img: Image<P>)
    ensures Valid(img) && img.width == width && img.height == height
    ensures forall y, x :: 0 <= y < height && 0 <= x < width ==> img.pixels[y][x] == fill
  {
    Image(width, height, seq(height, _ => seq(width, _ => fill)))
  }

  /** A crop box `(left, upper, right, lower)`, right and lower exclusive. */
  datatype Box = Box(left: nat, upper: nat, right: nat, lower: nat)

  predicate BoxWithin(b: Box, width: nat, height: nat) {
    b.left <= b.right <= width && b.upper <= b.lower <= height
  }

  predicate InBox(b: Box, x: int, y: int) {
    b.left <= x < b.right && b.upper <= y < b.lower
  }

  /** `tile` is exactly what box `b` covers in `img`: it has the box's size
      and its pixel (x, y) is the source pixel at (b.left + x, b.upper + y). */
  ghost predicate CroppedFrom<P>(tile: Image<P>, img: Image<P>, b: Box) {
    && Valid(img) && Valid(tile) && BoxWithin(b, img.width, img.height)
    && tile.width == b.right - b.left && tile.height == b.lower - b.upper
    && forall y, x :: 0 <= y < tile.height && 0 <= x < tile.width ==>
         tile.pixels[y][x] == img.pixels[b.upper + y][b.left + x]
  }

  lemma CropPixel<P>(tile: Image<P>, img: Image<P>, b: Box, x: nat, y: nat)
    requires CroppedFrom(tile, img, b) && x < tile.width && y < tile.height
    ensures b.left + x < img.width && b.upper + y < img.height
    ensures tile.pixels[y][x] == img.pixels[b.upper + y][b.left + x]
  {
  }

  /** Two well-formed images of the same size with the same pixels are the
      same image. */
  lemma ImageExtensionality<P>(a: Image<P>, b: Image<P>)
    requires Valid(a) && Valid(b) && a.width == b.width && a.height == b.height
    requires forall y, x :: 0 <= y < a.height && 0 <= x < a.width ==> a.pixels[y][x] == b.pixels[y][x]
    ensures a == b
  {
    forall y | 0 <= y < a.height
      ensures a.pixels[y] == b.pixels[y]
    {
      assert forall x :: 0 <= x < a.width ==> a.pixels[y][x] == b.pixels[y][x];
    }
  }

  /** `Image.crop` with a box inside the image. */
  function Crop<P>(img: Image<P>, b: Box): (tile: Image<P>)
    requires Valid(img) && BoxWithin(b, img.width, img.height)
    ensures CroppedFrom(tile, img, b)
  {
    Image(b.right - b.left, b.lower - b.upper,
      seq(b.lower - b.upper, j requires 0 <= j < b.lower - b.upper =>
        img.pixels[b.upper + j][b.left..b.right]))
  }

  /** Index of the quadrant (0 top-left, 1 top-right, 2 bottom-left,
      3 bottom-right) that point (x, y) falls in when the image is cut at
      column `midX` and row `midY`. */
  function Quadrant(x: int, y: int, midX: int, midY: int): nat {
    (if y < midY then 0 else 2) + (if x < midX then 0 else 1)
  }

  /** The four crop boxes of a `width`×`height` image, cut at the floor
      midpoints, in the order top-left, top-right, bottom-left, bottom-right. */
  function SplitBoxes(width: nat, height: nat): (boxes: seq<Box>)
    ensures |boxes| == 4
    ensures forall k :: 0 <= k < 4 ==> BoxWithin(boxes[k], width, height)
  {
    var midX := width / 2;
    var midY := height / 2;
    [Box(0, 0, midX, midY), Box(midX, 0, width, midY),
     Box(0, midY, midX, height), Box(midX, midY, width, height)]
  }

  /** The four boxes partition the image: every box lies inside it, and every
      pixel lies in exactly one box, the one its quadrant names. */
  lemma SplitBoxesPartition(width: nat, height: nat)
    ensures forall k, x, y :: 0 <= k < 4 && InBox(SplitBoxes(width, height)[k], x, y) ==>
      0 <= x < width && 0 <= y < height
    ensures forall k, x, y :: 0 <= k < 4 && 0 <= x < width && 0 <= y < height ==>
      (InBox(SplitBoxes(width, height)[k], x, y) <==> k == Quadrant(x, y, width / 2, height / 2))
  {
  }

  /** `tiles` are the four quadrant crops of `img`, in split order. */
  ghost predicate SplitOf<P>(tiles: seq<Image<P>>, img: Image<P>) {
    && Valid(img) && |tiles| == 4 && AllValid(tiles)
    && forall k :: 0 <= k < 4 ==> CroppedFrom(tiles[k], img, SplitBoxes(img.width, img.height)[k])
  }

  /** `split_image`: the four quadrant tiles, top-left, top-right,
      bottom-left, bottom-right. Left tiles are `width / 2` wide and right
      tiles take the remaining columns; likewise for rows. */
  function Split<P>(img: Image<P>): (tiles: seq<Image<P>>)
    requires Valid(img)
    ensures |tiles| == 4 && AllValid(tiles)
    ensures tiles[0].width == img.width / 2 && tiles[0].height == img.height / 2
    ensures tiles[1].width == img.width - img.width / 2 && tiles[1].height == img.height / 2
    ensures tiles[2].width == img.width / 2 && tiles[2].height == img.height - img.height / 2
    ensures tiles[3].width == img.width - img.width / 2 && tiles[3].height == img.height - img.height / 2
    ensures SplitOf(tiles, img)
  {
    var boxes := SplitBoxes(img.width, img.height);
    [Crop(img, boxes[0]), Crop(img, boxes[1]), Crop(img, boxes[2]), Crop(img, boxes[3])]
  }

  /** Every source pixel reappears in the tile of its quadrant, shifted by
      that tile's offset. */
  lemma SplitPixel<P>(img: Image<P>, x: nat, y: nat)
    requires Valid(img) && x < img.width && y < img.height
    ensures var k := Quadrant(x, y, img.width / 2, img.height / 2);
            var b := SplitBoxes(img.width, img.height)[k];
            && InBox(b, x, y)
            && y - b.upper < Split(img)[k].height && x - b.left < Split(img)[k].width
            && Split(img)[k].pixels[y - b.upper][x - b.left] == img.pixels[y][x]
  {
    SplitBoxesPartition(img.width, img.height);
  }

  /** The largest of a sequence of sizes, 0 for none. */
  function MaxOf(sizes: seq<nat>): (m: nat)
    ensures forall i :: 0 <= i < |sizes| ==> sizes[i] <= m
    ensures |sizes| > 0 ==> exists i :: 0 <= i < |sizes| && sizes[i] == m
    ensures |sizes| == 0 ==> m == 0
  {
    if |sizes| == 0 then 0 else Max(sizes[0], MaxOf(sizes[1..]))
  }

  function MaxWidth<P>(images: seq<Image<P>>): nat {
    MaxOf(seq(|images|, i requires 0 <= i < |images| => images[i].width))
  }

  function MaxHeight<P>(images: seq<Image<P>>): nat {
    MaxOf(seq(|images|, i requires 0 <= i < |images| => images[i].height))
  }

  /** `Image.paste` with a tile whose top-left corner goes to (ox, oy): inside
      the tile's footprint the tile wins, elsewhere the canvas is kept, and
      whatever falls off the canvas is clipped. */
  function Paste<P>(canvas: Image<P>, tile: Image<P>, ox: nat, oy: nat): (r: Image<P>)
    requires Valid(canvas) && Valid(tile)
    ensures Valid(r) && r.width == canvas.width && r.height == canvas.height
    ensures forall y, x :: 0 <= y < r.height && 0 <= x < r.width ==>
      r.pixels[y][x] ==
        if InBox(Box(ox, oy, ox + tile.width, oy + tile.height), x, y)
        then tile.pixels[y - oy][x - ox] else canvas.pixels[y][x]
  {
    Image(canvas.width, canvas.height,
      seq(canvas.height, y requires 0 <= y < canvas.height =>
        seq(canvas.width, x requires 0 <= x < canvas.width =>
          if ox <= x < ox + tile.width && oy <= y < oy + tile.height
          then tile.pixels[y - oy][x - ox] else canvas.pixels[y][x])))
  }

  /** The canvas `merge_images` builds: twice the largest tile width by twice
      the largest tile height, with images 0..3 pasted at (0, 0), (W, 0),
      (0, H), (W, H), where W and H are those largest dimensions. */
  function MergeCanvas<P>(images: seq<Image<P>>, fill: P): (r: Image<P>)
    requires |images| >= 4 && AllValid(images)
    ensures Valid(r)
    ensures r.width == 2 * MaxWidth(images) && r.height == 2 * MaxHeight(images)
  {
    var w := MaxWidth(images);
    var h := MaxHeight(images);
    var canvas := New(2 * w, 2 * h, fill);
    var c1 := Paste(canvas, images[0], 0, 0);
    var c2 := Paste(c1, images[1], w, 0);
    var c3 := Paste(c2, images[2], 0, h);
    Paste(c3, images[3], w, h)
  }

  /** `merge_images` on any list: with fewer than four images the source
      fails (taking the maximum of nothing, or indexing past the end). */
  function MergeImages<P>(images: seq<Image<P>>, fill: P): (r: Option<Image<P>>)
    requires AllValid(images)
    ensures r.Some? <==> |images| >= 4
    ensures r.Some? ==> Valid(r.value) && r.value == MergeCanvas(images, fill)
  {
    if |images| < 4 then None else Some(MergeCanvas(images, fill))
  }

  /** What `merge_images` shows at canvas point (x, y): the point lies in the
      quadrant of the W×H grid (W, H the largest tile width and height) named
      by `Quadrant`; if the tile placed there reaches the point it shows the
      tile's pixel, otherwise the canvas fill. */
  function MergedPixel<P>(images: seq<Image<P>>, fill: P, x: nat, y: nat): P
    requires |images| >= 4 && AllValid(images)
  {
    var w := MaxWidth(images);
    var h := MaxHeight(images);
    var k := Quadrant(x, y, w, h);
    var lx := if x < w then x else x - w;
    var ly := if y < h then y else y - h;
    if lx < images[k].width && ly < images[k].height
    then images[k].pixels[ly][lx] else fill
  }

  /** `merged` is the canvas the merge of `images` produces. */
  ghost predicate MergedFrom<P>(merged: Image<P>, images: seq<Image<P>>, fill: P) {
    && |images| >= 4 && AllValid(images) && Valid(merged)
    && merged.width == 2 * MaxWidth(images) && merged.height == 2 * MaxHeight(images)
    && forall y, x :: 0 <= y < merged.height && 0 <= x < merged.width ==>
         merged.pixels[y][x] == MergedPixel(images, fill, x, y)
  }

  /** No tile is wider or taller than the largest one. */
  lemma TilesFitQuadrants<P>(images: seq<Image<P>>)
    requires |images| >= 4
    ensures forall i :: 0 <= i < 4 ==>
      images[i].width <= MaxWidth(images) && images[i].height <= MaxHeight(images)
  {
    var widths := seq(|images|, i requires 0 <= i < |images| => images[i].width);
    var heights := seq(|images|, i requires 0 <= i < |images| => images[i].height);
    forall i | 0 <= i < 4
      ensures images[i].width <= MaxWidth(images) && images[i].height <= MaxHeight(images)
    {
      assert widths[i] == images[i].width;
      assert heights[i] == images[i].height;
    }
  }

  /** The four pastes never overlap, since no tile exceeds W×H, so each
      canvas point shows `MergedPixel`. */
  lemma MergePixel<P>(images: seq<Image<P>>, fill: P, x: nat, y: nat)
    requires |images| >= 4 && AllValid(images)
    requires x < 2 * MaxWidth(images) && y < 2 * MaxHeight(images)
    ensures MergeCanvas(images, fill).pixels[y][x] == MergedPixel(images, fill, x, y)
  {
    TilesFitQuadrants(images);
    var w := MaxWidth(images);
    var h := MaxHeight(images);
    var canvas := New(2 * w, 2 * h, fill);
    var c1 := Paste(canvas, images[0], 0, 0);
    var c2 := Paste(c1, images[1], w, 0);
    var c3 := Paste(c2, images[2], 0, h);
    var c4 := Paste(c3, images[3], w, h);
    assert MergeCanvas(images, fill) == c4;
  }

  /** `MergeCanvas` is a merge of its images in the sense of `MergedFrom`. */
  lemma MergeCanvasMerges<P>(images: seq<Image<P>>, fill: P)
    requires |images| >= 4 && AllValid(images)
    ensures MergedFrom(MergeCanvas(images, fill), images, fill)
  {
    forall y, x | 0 <= y < 2 * MaxHeight(images) && 0 <= x < 2 * MaxWidth(images)
      ensures MergeCanvas(images, fill).pixels[y][x] == MergedPixel(images, fill, x, y)
    {
      MergePixel(images, fill, x, y);
    }
  }

  /** Width or height that the merged canvas of a split image has along a
      side of length n: twice the larger half, that is 2·⌈n/2⌉. */
  function MergedSide(n: nat): nat {
    2 * (n - n / 2)
  }

  /** Along a side of odd length n, the canvas position n/2 is the seam that
      no tile reaches. */
  predicate Seam(c: nat, n: nat) {
    n % 2 == 1 && c == n / 2
  }

  /** The source coordinate shown at canvas coordinate c along a side of
      length n (off the seam): positions past the seam are shifted by one. */
  function SourceCoord(c: nat, n: nat): nat {
    if c < n - n / 2 then c else c - (n - n / 2) + n / 2
  }

  /** A size that bounds every entry and is one of them is the maximum:
      this fixes the largest of the four split tile widths (small, large,
      small, large) and heights (small, small, large, large) alike. */
  lemma MaxOfAttained(sizes: seq<nat>, large: nat, at: nat)
    requires at < |sizes| && sizes[at] == large
    requires forall i :: 0 <= i < |sizes| ==> sizes[i] <= large
    ensures MaxOf(sizes) == large
  {
  }

  /** The largest split tile is ⌈w/2⌉ wide and ⌈h/2⌉ tall. */
  lemma SplitMaxDimensions<P>(tiles: seq<Image<P>>, img: Image<P>)
    requires SplitOf(tiles, img)
    ensures MaxWidth(tiles) == img.width - img.width / 2
    ensures MaxHeight(tiles) == img.height - img.height / 2
  {
    var boxes := SplitBoxes(img.width, img.height);
    assert forall k :: 0 <= k < 4 ==> CroppedFrom(tiles[k], img, boxes[k]);
    var widths := seq(|tiles|, i requires 0 <= i < |tiles| => tiles[i].width);
    var heights := seq(|tiles|, i requires 0 <= i < |tiles| => tiles[i].height);
    MaxOfAttained(widths, img.width - img.width / 2, 1);
    MaxOfAttained(heights, img.height - img.height / 2, 3);
  }

  /** Along one side of length n, canvas position c falls in the first or
      second tile column (row); the tile there starts at source position
      `start` and spans `len` positions. The position is reached by the tile
      exactly when it is off the seam, and then it shows `SourceCoord`. */
  lemma AxisPosition(c: nat, n: nat)
    requires c < MergedSide(n)
    ensures var half := n - n / 2;
            var local := if c < half then c else c - half;
            var start := if c < half then 0 else n / 2;
            var len := if c < half then n / 2 else n - n / 2;
            && (local < len <==> !Seam(c, n))
            && (!Seam(c, n) ==> start + local == SourceCoord(c, n) < n)
  {
  }

  /** The split box of the quadrant that canvas point (x, y) of the merged
      canvas lands in: it reaches the point's offset within its quadrant
      exactly off the seams, and then the offset maps back to `SourceCoord`. */
  lemma QuadrantBox(w: nat, h: nat, x: nat, y: nat)
    requires x < MergedSide(w) && y < MergedSide(h)
    ensures var b := SplitBoxes(w, h)[Quadrant(x, y, w - w / 2, h - h / 2)];
            var lx := if x < w - w / 2 then x else x - (w - w / 2);
            var ly := if y < h - h / 2 then y else y - (h - h / 2);
            && (lx < b.right - b.left && ly < b.lower - b.upper <==> !Seam(x, w) && !Seam(y, h))
            && (!Seam(x, w) ==> b.left + lx == SourceCoord(x, w) < w)
            && (!Seam(y, h) ==> b.upper + ly == SourceCoord(y, h) < h)
  {
    AxisPosition(x, w);
    AxisPosition(y, h);
  }

  /** The point (x, y) of a canvas built on a W×H grid falls in quadrant
      `Quadrant(x, y, W, H)`; the split tile of that quadrant reaches it
      exactly off the seams, and then shows the source pixel at
      `SourceCoord`. */
  lemma SplitTileAt<P>(img: Image<P>, tiles: seq<Image<P>>, x: nat, y: nat)
    requires SplitOf(tiles, img)
    requires x < MergedSide(img.width) && y < MergedSide(img.height)
    ensures var w, h := img.width, img.height;
            var k := Quadrant(x, y, w - w / 2, h - h / 2);
            var lx := if x < w - w / 2 then x else x - (w - w / 2);
            var ly := if y < h - h / 2 then y else y - (h - h / 2);
            && (lx < tiles[k].width && ly < tiles[k].height <==> !Seam(x, w) && !Seam(y, h))
            && (!Seam(x, w) && !Seam(y, h) ==>
                 && SourceCoord(x, w) < w && SourceCoord(y, h) < h
                 && tiles[k].pixels[ly][lx] == img.pixels[SourceCoord(y, h)][SourceCoord(x, w)])
  {
    var w := img.width;
    var h := img.height;
    var k := Quadrant(x, y, w - w / 2, h - h / 2);
    var b := SplitBoxes(w, h)[k];
    QuadrantBox(w, h, x, y);
    assert CroppedFrom(tiles[k], img, b);
    if !Seam(x, w) && !Seam(y, h) {
      var lx := if x < w - w / 2 then x else x - (w - w / 2);
      var ly := if y < h - h / 2 then y else y - (h - h / 2);
      CropPixel(tiles[k], img, b, lx, ly);
    }
  }

  /** A merged canvas at (x, y), with the grid dimensions named. */
  lemma MergedAt<P>(merged: Image<P>, images: seq<Image<P>>, fill: P, w: nat, h: nat, x: nat, y: nat)
    requires MergedFrom(merged, images, fill)
    requires MaxWidth(images) == w && MaxHeight(images) == h && x < 2 * w && y < 2 * h
    ensures var k := Quadrant(x, y, w, h);
            var lx := if x < w then x else x - w;
            var ly := if y < h then y else y - h;
            merged.pixels[y][x] ==
              if lx < images[k].width && ly < images[k].height
              then images[k].pixels[ly][lx] else fill
  {
    assert merged.pixels[y][x] == MergedPixel(images, fill, x, y);
  }

  /** Any merge of any split of `img`, at canvas point (x, y): the fill on a
      seam, the source pixel at `SourceCoord` elsewhere. */
  lemma MergedSplitPixel<P>(img: Image<P>, tiles: seq<Image<P>>, merged: Image<P>, fill: P, x: nat, y: nat)
    requires SplitOf(tiles, img) && MergedFrom(merged, tiles, fill)
    requires x < merged.width && y < merged.height
    ensures merged.width == MergedSide(img.width) && merged.height == MergedSide(img.height)
    ensures Seam(x, img.width) || Seam(y, img.height) ==> merged.pixels[y][x] == fill
    ensures !Seam(x, img.width) && !Seam(y, img.height) ==>
      && SourceCoord(x, img.width) < img.width
      && SourceCoord(y, img.height) < img.height
      && merged.pixels[y][x] == img.pixels[SourceCoord(y, img.height)][SourceCoord(x, img.width)]
  {
    var w := img.width;
    var h := img.height;
    SplitMaxDimensions(tiles, img);
    MergedAt(merged, tiles, fill, w - w / 2, h - h / 2, x, y);
    SplitTileAt(img, tiles, x, y);
    var k := Quadrant(x, y, w - w / 2, h - h / 2);
    var lx := if x < w - w / 2 then x else x - (w - w / 2);
    var ly := if y < h - h / 2 then y else y - (h - h / 2);
    if !Seam(x, w) && !Seam(y, h) {
      assert lx < tiles[k].width && ly < tiles[k].height;
      assert merged.pixels[y][x] == tiles[k].pixels[ly][lx];
    } else {
      assert !(lx < tiles[k].width && ly < tiles[k].height);
    }
  }

  // The facts about merge(split(img)) come in two forms. The general lemmas
  // (MergedSplitPixel, MergedSplitRoundTrip, MergedSplitSeams) hold for any
  // tiles and canvas characterised by SplitOf and MergedFrom, so their proofs
  // never unfold the bodies of Split and MergeCanvas together. Each concrete
  // lemma about Split and MergeCanvas themselves establishes those two
  // premises and then applies its general counterpart.

  /** Merging a split image yields a 2·⌈w/2⌉ × 2·⌈h/2⌉ canvas, which has the
      original size exactly when both dimensions are even. */
  lemma SplitMergeSize<P>(img: Image<P>, fill: P)
    requires Valid(img)
    ensures MergeCanvas(Split(img), fill).width == MergedSide(img.width)
    ensures MergeCanvas(Split(img), fill).height == MergedSide(img.height)
    ensures (MergeCanvas(Split(img), fill).width == img.width &&
             MergeCanvas(Split(img), fill).height == img.height)
        <==> (img.width % 2 == 0 && img.height % 2 == 0)
  {
    SplitMaxDimensions(Split(img), img);
  }

  /** Pixel-by-pixel description of merge(split(img)): on an odd side's seam
      the canvas keeps its fill; everywhere else it shows the source pixel at
      `SourceCoord`, which is the same coordinate for an even side. */
  lemma SplitMergePixel<P>(img: Image<P>, fill: P, x: nat, y: nat)
    requires Valid(img)
    requires x < MergedSide(img.width) && y < MergedSide(img.height)
    ensures MergeCanvas(Split(img), fill).width == MergedSide(img.width)
    ensures MergeCanvas(Split(img), fill).height == MergedSide(img.height)
    ensures Seam(x, img.width) || Seam(y, img.height) ==>
      MergeCanvas(Split(img), fill).pixels[y][x] == fill
    ensures !Seam(x, img.width) && !Seam(y, img.height) ==>
      && SourceCoord(x, img.width) < img.width
      && SourceCoord(y, img.height) < img.height
      && MergeCanvas(Split(img), fill).pixels[y][x] ==
         img.pixels[SourceCoord(y, img.height)][SourceCoord(x, img.width)]
  {
    var tiles := Split(img);
    SplitMaxDimensions(tiles, img);
    MergeCanvasMerges(tiles, fill);
    MergedSplitPixel(img, tiles, MergeCanvas(tiles, fill), fill, x, y);
  }

  /** Any merge of any split of an even-sized image is the image itself. */
  lemma MergedSplitRoundTrip<P>(img: Image<P>, tiles: seq<Image<P>>, merged: Image<P>, fill: P)
    requires SplitOf(tiles, img) && MergedFrom(merged, tiles, fill)
    requires img.width % 2 == 0 && img.height % 2 == 0
    ensures merged == img
  {
    SplitMaxDimensions(tiles, img);
    forall y, x | 0 <= y < img.height && 0 <= x < img.width
      ensures merged.pixels[y][x] == img.pixels[y][x]
    {
      MergedSplitPixel(img, tiles, merged, fill, x, y);
    }
    ImageExtensionality(merged, img);
  }

  /** Round trip: for even width and height, merging the split image gives
      back the original image exactly. */
  lemma SplitMergeRoundTrip<P>(img: Image<P>, fill: P)
    requires Valid(img) && img.width % 2 == 0 && img.height % 2 == 0
    ensures MergeCanvas(Split(img), fill) == img
  {
    MergeCanvasMerges(Split(img), fill);
    MergedSplitRoundTrip(img, Split(img), MergeCanvas(Split(img), fill), fill);
  }

  /** Any merge of any split: for an odd width the canvas column w/2 is
      painted by no tile, and for an odd height neither is row h/2. */
  lemma MergedSplitSeams<P>(img: Image<P>, tiles: seq<Image<P>>, merged: Image<P>, fill: P)
    requires SplitOf(tiles, img) && MergedFrom(merged, tiles, fill)
    ensures img.width % 2 == 1 ==>
      && img.width / 2 < merged.width
      && forall y :: 0 <= y < merged.height ==> merged.pixels[y][img.width / 2] == fill
    ensures img.height % 2 == 1 ==>
      && img.height / 2 < merged.height
      && forall x :: 0 <= x < merged.width ==> merged.pixels[img.height / 2][x] == fill
  {
    SplitMaxDimensions(tiles, img);
    if img.width % 2 == 1 {
      forall y | 0 <= y < merged.height
        ensures merged.pixels[y][img.width / 2] == fill
      {
        MergedSplitPixel(img, tiles, merged, fill, img.width / 2, y);
      }
    }
    if img.height % 2 == 1 {
      forall x | 0 <= x < merged.width
        ensures merged.pixels[img.height / 2][x] == fill
      {
        MergedSplitPixel(img, tiles, merged, fill, x, img.height / 2);
      }
    }
  }

  /** For an odd width the canvas column w/2 is painted by no tile, and for
      an odd height neither is row h/2: they keep the canvas fill. */
  lemma OddSeamUnpainted<P>(img: Image<P>, fill: P)
    requires Valid(img)
    ensures img.width % 2 == 1 ==>
      && img.width / 2 < MergeCanvas(Split(img), fill).width
      && forall y :: 0 <= y < MergeCanvas(Split(img), fill).height ==>
           MergeCanvas(Split(img), fill).pixels[y][img.width / 2] == fill
    ensures img.height % 2 == 1 ==>
      && img.height / 2 < MergeCanvas(Split(img), fill).height
      && forall x :: 0 <= x < MergeCanvas(Split(img), fill).width ==>
           MergeCanvas(Split(img), fill).pixels[img.height / 2][x] == fill
  {
    MergeCanvasMerges(Split(img), fill);
    MergedSplitSeams(img, Split(img), MergeCanvas(Split(img), fill), fill);
  }
}
