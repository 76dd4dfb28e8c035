/** The thumbnail geometry: one scaling factor, the smaller of the two ratios
    between the bounding box and the measured image, applied to both axes.
    Arithmetic is over exact rationals (`real`). */
module Geometry {

  const MaxWidth: int := 100
  const MaxHeight: int := 100

  /** An image dimension as the image library measures it. */
  type Positive = n: int | n > 0 witness 1

  /** A resize target; the dimensions may be fractional. */
  datatype Extent = Extent(width: real, height: real)

  function Min(a: real, b: real): real {
    if a <= b then a else b
  }

  /** `Math.min(MAX_WIDTH / width, MAX_HEIGHT / height)`: the largest factor
      that keeps both axes inside the bounding box. */
  function ScalingFactor(width: Positive, height: Positive): (f: real)
    ensures f > 0.0
    ensures f * width as real <= MaxWidth as real
    ensures f * height as real <= MaxHeight as real
    ensures f * width as real == MaxWidth as real || f * height as real == MaxHeight as real
  {
    Min(MaxWidth as real / width as real, MaxHeight as real / height as real)
  }

  /** The target of `image.resize(width, height)`: both measured dimensions
      multiplied by the one scaling factor. */
  function Thumbnail(width: Positive, height: Positive): (r: Extent)
    ensures 0.0 < r.width <= MaxWidth as real
    ensures 0.0 < r.height <= MaxHeight as real
    ensures r.width == MaxWidth as real || r.height == MaxHeight as real
    ensures r.width * height as real == r.height * width as real
  {
    var f := ScalingFactor(width, height);
    Extent(f * width as real, f * height as real)
  }

  /** An image already inside the box is enlarged, not left as it is: both
      of its axes grow. */
  lemma SmallImagesAreEnlarged(width: Positive, height: Positive)
    requires width < MaxWidth && height < MaxHeight
    ensures Thumbnail(width, height).width > width as real
    ensures Thumbnail(width, height).height > height as real
  {
    var f := ScalingFactor(width, height);
    assert f * width as real > width as real by {
      assert MaxWidth as real / width as real > 1.0;
      assert MaxHeight as real / height as real > 1.0;
      assert f > 1.0;
    }
    assert f * height as real > height as real by {
      assert f > 1.0;
    }
  }

  /** An image larger than the box in some axis is shrunk in both axes. */
  lemma LargeImagesAreShrunk(width: Positive, height: Positive)
    requires width > MaxWidth || height > MaxHeight
    ensures Thumbnail(width, height).width < width as real
    ensures Thumbnail(width, height).height < height as real
  {
  }

  /** A wide 200 by 50 image is limited by its width: factor 1/2, 100 by 25. */
  lemma WideExample()
    ensures ScalingFactor(200, 50) == 0.5
    ensures Thumbnail(200, 50) == Extent(100.0, 25.0)
  {
  }

  /** A tall 50 by 200 image is limited by its height: factor 1/2, 25 by 100. */
  lemma TallExample()
    ensures ScalingFactor(50, 200) == 0.5
    ensures Thumbnail(50, 200) == Extent(25.0, 100.0)
  {
  }
}
