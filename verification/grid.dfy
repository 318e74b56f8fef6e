/** Pixel coordinates on the 16x16-pixel tile grid, with Java's integer remainder. */
module Grid {

  /** Side of a tile, in pixels. */
  const TileSize: int := 16

  /** Offset of a tile's centre from its top-left corner, in pixels. */
  const CentreOffset: int := 8

  /** An integer pixel position (Java's `IntVector`). */
  datatype Pos = Pos(x: int, y: int)

  /** Java's `a % 16`: the remainder of a division truncated toward zero, which
      takes the sign of the dividend (unlike Dafny's Euclidean `%`). */
  function JavaRem(a: int): (r: int)
    ensures a >= 0 ==> 0 <= r < TileSize
    ensures a < 0 ==> -TileSize < r <= 0
    ensures (a - r) % TileSize == 0
  {
    if a >= 0 then a % TileSize
    else
      var q := (-a) / TileSize;
      assert a + (-a) % TileSize == TileSize * -q;
      -((-a) % TileSize)
  }

  /** The tile-centre test of the movement loop, evaluated with Java's `%`. */
  predicate TileCentre(x: int, y: int) {
    JavaRem(x) == CentreOffset && JavaRem(y) == CentreOffset
  }

  /** With Java's `%`, only non-negative coordinates can be tile centres. */
  lemma TileCentreIff(x: int, y: int)
    ensures TileCentre(x, y) <==> 0 <= x && 0 <= y && x % 16 == 8 && y % 16 == 8
  {
  }

  /** Moving a centred coordinate by less than a tile leaves the centre. */
  lemma OffCentre(a: int, k: int)
    requires JavaRem(a) == CentreOffset
    requires 0 < k < TileSize
    ensures JavaRem(a + k) != CentreOffset
    ensures JavaRem(a - k) != CentreOffset
  {
    assert a % 16 == 8;
    if a - k >= 0 {
      assert (a - k) % 16 != 8 by {
        var q := a / 16;
        assert a == 16 * q + 8;
        if k < 8 {
          assert a - k == 16 * q + (8 - k);
        } else if k > 8 {
          assert a - k == 16 * (q - 1) + (24 - k);
        } else {
          assert a - k == 16 * q;
        }
      }
    }
    assert (a + k) % 16 != 8 by {
      var q := a / 16;
      assert a == 16 * q + 8;
      if k < 8 {
        assert a + k == 16 * q + (8 + k);
      } else {
        assert a + k == 16 * (q + 1) + (k - 8);
      }
    }
  }

  /** Moving a centred coordinate by exactly one tile reaches the next centre,
      provided the result stays non-negative. */
  lemma NextCentre(a: int)
    requires JavaRem(a) == CentreOffset
    ensures JavaRem(a + TileSize) == CentreOffset
    ensures a - TileSize >= 0 ==> JavaRem(a - TileSize) == CentreOffset
  {
    var q := a / 16;
    assert a == 16 * q + 8;
    assert a + 16 == 16 * (q + 1) + 8;
    assert a - 16 == 16 * (q - 1) + 8;
  }
}
