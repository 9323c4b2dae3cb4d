/** The tiled fan-out/fan-in of `remove_async`: split the image into its four
    quadrants, run background removal on each tile through an
    order-preserving pool map, and merge the four results. */
module Pipeline {
  import opened Common
  import opened Tiling

  /** The external remover keeps images well formed. */
  ghost predicate KeepsValid<P(!new), E>(remove: Image<P> -> Result<Image<P>, E>) {
    forall t :: Valid(t) && remove(t).Success? ==> Valid(remove(t).value)
  }

  /** `remove_async`: split, remove per tile through `Pool.starmap` (an
      order-preserving `MapAll`: result k is the removal of tile k whatever
      order the workers finish in), merge. A failing tile aborts the whole
      operation and no partial merge is produced. */
  function RemoveAsync<P(!new), E>(img: Image<P>, remove: Image<P> -> Result<Image<P>, E>, fill: P)
    : (r: Result<Image<P>, E>)
    requires Valid(img) && KeepsValid(remove)
    ensures r.Success? <==> forall k :: 0 <= k < 4 ==> remove(Split(img)[k]).Success?
    ensures r.Failure? ==> exists k :: 0 <= k < 4 && remove(Split(img)[k]) == Failure(r.error)
    ensures r.Success? ==> Valid(r.value)
    ensures r.Success? ==>
      r.value == MergeCanvas(seq(4, k requires 0 <= k < 4 => remove(Split(img)[k]).value), fill)
  {
    var tiles := Split(img);
    match MapAll(remove, tiles)
    case Failure(e) => Failure(e)
    case Success(results) =>
      assert results == seq(4, k requires 0 <= k < 4 => remove(tiles[k]).value);
      Success(MergeCanvas(results, fill))
  }

  /** A remover that transforms every pixel on its own, independently of
      its neighbours. */
  function MapPixels<P>(img: Image<P>, f: P -> P): (r: Image<P>)
    requires Valid(img)
    ensures Valid(r) && r.width == img.width && r.height == img.height
    ensures forall y, x :: 0 <= y < img.height && 0 <= x < img.width ==>
      r.pixels[y][x] == f(img.pixels[y][x])
  {
    Image(img.width, img.height,
      seq(img.height, y requires 0 <= y < img.height =>
        seq(img.width, x requires 0 <= x < img.width => f(img.pixels[y][x]))))
  }

  /** Splitting commutes with a per-pixel transform. */
  lemma SplitMapPixels<P>(img: Image<P>, f: P -> P, k: nat)
    requires Valid(img) && k < 4
    ensures MapPixels(Split(img)[k], f) == Split(MapPixels(img, f))[k]
  {
    var b := SplitBoxes(img.width, img.height)[k];
    var a := MapPixels(Split(img)[k], f);
    var c := Split(MapPixels(img, f))[k];
    assert CroppedFrom(Split(img)[k], img, b);
    assert CroppedFrom(c, MapPixels(img, f), b);
    forall y, x | 0 <= y < a.height && 0 <= x < a.width
      ensures a.pixels[y][x] == c.pixels[y][x]
    {
      CropPixel(Split(img)[k], img, b, x, y);
      CropPixel(c, MapPixels(img, f), b, x, y);
    }
    ImageExtensionality(a, c);
  }

  /** For even dimensions and a per-pixel remover, the tiled pipeline
      produces exactly what one whole-image call would. */
  lemma TiledMatchesDirect<P(!new)>(img: Image<P>, f: P -> P, fill: P)
    requires Valid(img) && img.width % 2 == 0 && img.height % 2 == 0
    ensures var remove := (t: Image<P>) => if Valid(t) then Success(MapPixels(t, f)) else Failure("malformed");
            KeepsValid(remove) && RemoveAsync(img, remove, fill) == Success(MapPixels(img, f))
  {
    var remove := (t: Image<P>) => if Valid(t) then Success(MapPixels(t, f)) else Failure("malformed");
    var tiles := Split(img);
    var results := seq(4, k requires 0 <= k < 4 => remove(tiles[k]).value);
    forall k | 0 <= k < 4
      ensures results[k] == Split(MapPixels(img, f))[k]
    {
      SplitMapPixels(img, f, k);
    }
    assert results == Split(MapPixels(img, f));
    SplitMergeRoundTrip(MapPixels(img, f), fill);
  }
}
