/**
 Layer compositing (alpha_composite and the layer loop of render_video in services/renderer/compositor.py). Channels are
 integers in 0..255, blending is exact over the reals and then truncated to an integer, as astype(uint8) does.
 */
module Compositing {
  import opened Basics

  datatype Pixel = Pixel(b: int, g: int, r: int)

  /** A decoded tile: three channels, or four with the alpha channel kept apart. All tiles of a video have one size. */
  datatype Tile = Opaque(px: seq<Pixel>) | Transparent(px: seq<Pixel>, alpha: seq<int>)

  /** A layer of a request with the tile fetched for it, if any. */
  datatype Layer = Layer(tile: Option<Tile>, opacity: real)

  type Canvas = seq<Pixel>

  predicate ByteRange(c: int) {
    0 <= c <= 255
  }

  predicate ValidPixel(p: Pixel) {
    ByteRange(p.b) && ByteRange(p.g) && ByteRange(p.r)
  }

  predicate ValidCanvas(c: Canvas, size: nat) {
    |c| == size && forall i :: 0 <= i < |c| ==> ValidPixel(c[i])
  }

  predicate ValidTile(t: Tile, size: nat) {
    ValidCanvas(t.px, size) &&
    (t.Transparent? ==> |t.alpha| == size && forall i :: 0 <= i < size ==> ByteRange(t.alpha[i]))
  }

  predicate ValidLayer(l: Layer, size: nat) {
    0.0 <= l.opacity <= 1.0 && (l.tile.Some? ==> ValidTile(l.tile.value, size))
  }

  predicate ValidLayers(layers: seq<Layer>, size: nat) {
    forall k :: 0 <= k < |layers| ==> ValidLayer(layers[k], size)
  }

  // ---------------------------------------------------------------- one channel

  /** alpha * foreground + (1 - alpha) * background */
  function Mixed(bg: int, fg: int, alpha: real): real {
    alpha * fg as real + (1.0 - alpha) * bg as real
  }

  function Clipped(x: real): real {
    if x < 0.0 then 0.0 else if x > 255.0 then 255.0 else x
  }

  function Blend(bg: int, fg: int, alpha: real): int {
    Clipped(Mixed(bg, fg, alpha)).Floor
  }

  predicate Between(a: int, x: int, b: int) {
    Min(a, b) <= x <= Max(a, b)
  }

  lemma PartOf(alpha: real, d: real)
    requires 0.0 <= alpha <= 1.0 && 0.0 <= d
    ensures 0.0 <= alpha * d <= d
  {
    assert (1.0 - alpha) * d >= 0.0;
    assert (1.0 - alpha) * d == d - alpha * d;
  }

  lemma Weighted(low: real, high: real, alpha: real, m: real)
    requires low <= high && 0.0 <= alpha <= 1.0 && m == alpha * high + (1.0 - alpha) * low
    ensures low <= m <= high
  {
    PartOf(alpha, high - low);
    PartOf(1.0 - alpha, high - low);
    assert m == low + alpha * (high - low);
    assert m == high - (1.0 - alpha) * (high - low);
  }

  lemma MixedBetween(bg: int, fg: int, alpha: real)
    requires 0.0 <= alpha <= 1.0
    ensures Min(bg, fg) as real <= Mixed(bg, fg, alpha) <= Max(bg, fg) as real
  {
    var b, f, m := bg as real, fg as real, Mixed(bg, fg, alpha);
    if bg <= fg {
      Weighted(b, f, alpha, m);
      assert b <= m <= f;
    } else {
      var beta := 1.0 - alpha;
      assert 1.0 - beta == alpha;
      Weighted(f, b, beta, m);
      assert f <= m <= b;
    }
  }

  /** A blended channel lies between background and foreground, so the clip never acts; the ends are exact. */
  lemma BlendBetween(bg: int, fg: int, alpha: real)
    requires ByteRange(bg) && ByteRange(fg) && 0.0 <= alpha <= 1.0
    ensures Between(bg, Blend(bg, fg, alpha), fg)
    ensures Clipped(Mixed(bg, fg, alpha)) == Mixed(bg, fg, alpha)
    ensures alpha == 0.0 ==> Blend(bg, fg, alpha) == bg
    ensures alpha == 1.0 ==> Blend(bg, fg, alpha) == fg
  {
    MixedBetween(bg, fg, alpha);
  }

  /** The alpha of a pixel of a transparent tile. */
  function LayerAlpha(a: int, opacity: real): real {
    (a as real / 255.0) * opacity
  }

  /** The clip is idle for all channels and every tile alpha exactly when the layer's opacity is a fraction. */
  lemma ClipIdleExactly(opacity: real)
    ensures (forall bg, fg, a {:trigger Mixed(bg, fg, LayerAlpha(a, opacity))} ::
              ByteRange(bg) && ByteRange(fg) && ByteRange(a) ==>
              0.0 <= Mixed(bg, fg, LayerAlpha(a, opacity)) <= 255.0)
            <==> 0.0 <= opacity <= 1.0
  {
    if 0.0 <= opacity <= 1.0 {
      forall bg, fg, a | ByteRange(bg) && ByteRange(fg) && ByteRange(a)
        ensures 0.0 <= Mixed(bg, fg, LayerAlpha(a, opacity)) <= 255.0
      {
        FractionOfOpacity(a, opacity);
        MixedBetween(bg, fg, LayerAlpha(a, opacity));
      }
    } else {
      assert LayerAlpha(255, opacity) == opacity;
      assert Mixed(0, 255, LayerAlpha(255, opacity)) == opacity * 255.0;
      assert ByteRange(0) && ByteRange(255);
    }
  }

  lemma FractionOfOpacity(a: int, opacity: real)
    requires ByteRange(a) && 0.0 <= opacity <= 1.0
    ensures 0.0 <= LayerAlpha(a, opacity) <= 1.0
  {
    PartOf(a as real / 255.0, opacity);
  }

  // ---------------------------------------------------------------- one tile

  /** The alpha of pixel `i`: the tile's own, or 1 for a pixel bright enough and 0 for a dark one; times the opacity. */
  function AlphaAt(t: Tile, i: nat, opacity: real): real
    requires i < |t.px| && (t.Transparent? ==> i < |t.alpha|)
  {
    match t
    case Transparent(_, alpha) => LayerAlpha(alpha[i], opacity)
    case Opaque(px) => if px[i].b + px[i].g + px[i].r > 10 then opacity else 0.0
  }

  function BlendPixel(bg: Pixel, fg: Pixel, alpha: real): Pixel {
    Pixel(Blend(bg.b, fg.b, alpha), Blend(bg.g, fg.g, alpha), Blend(bg.r, fg.r, alpha))
  }

  /** alpha_composite: no tile keeps the background; the first tile, or the base layer, is taken as it is. */
  function Composite(bg: Option<Canvas>, fg: Option<Tile>, isOverlay: bool, opacity: real, size: nat): Option<Canvas>
    requires bg.Some? ==> ValidCanvas(bg.value, size)
    requires fg.Some? ==> ValidTile(fg.value, size)
  {
    if fg.None? then bg
    else if bg.None? || !isOverlay then Some(fg.value.px)
    else Some(seq(size, i requires 0 <= i < size =>
                BlendPixel(bg.value[i], fg.value.px[i], AlphaAt(fg.value, i, opacity))))
  }

  lemma AlphaIsFraction(t: Tile, i: nat, opacity: real, size: nat)
    requires ValidTile(t, size) && i < size && 0.0 <= opacity <= 1.0
    ensures 0.0 <= AlphaAt(t, i, opacity) <= 1.0
  {
    if t.Transparent? {
      FractionOfOpacity(t.alpha[i], opacity);
    }
  }

  lemma BlendPixelValid(bg: Pixel, fg: Pixel, alpha: real)
    requires ValidPixel(bg) && ValidPixel(fg) && 0.0 <= alpha <= 1.0
    ensures var p := BlendPixel(bg, fg, alpha);
            && ValidPixel(p)
            && Between(bg.b, p.b, fg.b) && Between(bg.g, p.g, fg.g) && Between(bg.r, p.r, fg.r)
            && (alpha == 0.0 ==> p == bg) && (alpha == 1.0 ==> p == fg)
  {
    BlendBetween(bg.b, fg.b, alpha);
    BlendBetween(bg.g, fg.g, alpha);
    BlendBetween(bg.r, fg.r, alpha);
  }

  lemma CompositeValid(bg: Option<Canvas>, fg: Option<Tile>, isOverlay: bool, opacity: real, size: nat)
    requires bg.Some? ==> ValidCanvas(bg.value, size)
    requires fg.Some? ==> ValidTile(fg.value, size)
    requires 0.0 <= opacity <= 1.0
    ensures var c := Composite(bg, fg, isOverlay, opacity, size);
            && (c.Some? ==> ValidCanvas(c.value, size))
            && (c.Some? <==> bg.Some? || fg.Some?)
  {
    if fg.Some? && bg.Some? && isOverlay {
      var c := Composite(bg, fg, isOverlay, opacity, size).value;
      forall i | 0 <= i < size
        ensures ValidPixel(c[i])
      {
        AlphaIsFraction(fg.value, i, opacity, size);
        BlendPixelValid(bg.value[i], fg.value.px[i], AlphaAt(fg.value, i, opacity));
      }
    }
  }

  /** `x` is the integer below the mixture of `weight` parts of `fg` and the rest, out of `whole`, of `bg`. */
  predicate Mixes(x: int, weight: real, whole: real, fg: int, bg: int) {
    whole * x as real <= weight * fg as real + (whole - weight) * bg as real < whole * (x as real + 1.0)
  }

  /** All three channels. */
  predicate PixelMixes(out: Pixel, weight: real, whole: real, fg: Pixel, bg: Pixel) {
    && Mixes(out.b, weight, whole, fg.b, bg.b)
    && Mixes(out.g, weight, whole, fg.g, bg.g)
    && Mixes(out.r, weight, whole, fg.r, bg.r)
  }

  /** A blended channel is the integer below the mixture. */
  lemma BlendFloors(bg: int, fg: int, alpha: real)
    requires ByteRange(bg) && ByteRange(fg) && 0.0 <= alpha <= 1.0
    ensures Mixes(Blend(bg, fg, alpha), alpha, 1.0, fg, bg)
  {
    BlendBetween(bg, fg, alpha);
  }

  /** The same with the fraction of a tile's alpha `a` and the layer's opacity multiplied out. */
  lemma BlendFloors255(bg: int, fg: int, a: int, opacity: real, w: real)
    requires ByteRange(bg) && ByteRange(fg) && ByteRange(a) && 0.0 <= opacity <= 1.0 && w == a as real * opacity
    ensures Mixes(Blend(bg, fg, LayerAlpha(a, opacity)), w, 255.0, fg, bg)
  {
    var alpha := LayerAlpha(a, opacity);
    FractionOfOpacity(a, opacity);
    BlendFloors(bg, fg, alpha);
    assert 255.0 * alpha == w;
    var f, b := fg as real, bg as real;
    assert 255.0 * (alpha * f) == w * f && 255.0 * ((1.0 - alpha) * b) == (255.0 - w) * b;
  }

  lemma AlphaPixel(below: Pixel, px: Pixel, a: int, opacity: real, w: real)
    requires ValidPixel(below) && ValidPixel(px) && ByteRange(a) && 0.0 <= opacity <= 1.0 && w == a as real * opacity
    ensures PixelMixes(BlendPixel(below, px, LayerAlpha(a, opacity)), w, 255.0, px, below)
  {
    BlendFloors255(below.b, px.b, a, opacity, w);
    BlendFloors255(below.g, px.g, a, opacity, w);
    BlendFloors255(below.r, px.r, a, opacity, w);
  }

  lemma AlphaEnds(below: Pixel, px: Pixel, a: int, opacity: real)
    requires ValidPixel(below) && ValidPixel(px) && ByteRange(a) && 0.0 <= opacity <= 1.0
    ensures a == 0 ==> BlendPixel(below, px, LayerAlpha(a, opacity)) == below
    ensures a == 255 && opacity == 1.0 ==> BlendPixel(below, px, LayerAlpha(a, opacity)) == px
  {
    FractionOfOpacity(a, opacity);
    BlendPixelValid(below, px, LayerAlpha(a, opacity));
    assert a == 0 ==> LayerAlpha(a, opacity) == 0.0;
    assert a == 255 && opacity == 1.0 ==> LayerAlpha(a, opacity) == 1.0;
  }

  lemma MaskEnds(below: Pixel, px: Pixel, w: real)
    requires ValidPixel(below) && ValidPixel(px) && 0.0 <= w <= 1.0
    ensures w == 0.0 ==> BlendPixel(below, px, w) == below
    ensures w == 1.0 ==> BlendPixel(below, px, w) == px
  {
    BlendPixelValid(below, px, w);
  }

  lemma MaskFloors(below: Pixel, px: Pixel, w: real)
    requires ValidPixel(below) && ValidPixel(px) && 0.0 <= w <= 1.0
    ensures var out := BlendPixel(below, px, w);
            PixelMixes(out, w, 1.0, px, below)
  {
    BlendFloors(below.b, px.b, w);
    BlendFloors(below.g, px.g, w);
    BlendFloors(below.r, px.r, w);
  }

  // ---------------------------------------------------------------- any number of layers

  /** The layer loop: the first layer is the base, the others overlays. */
  function Folded(layers: seq<Layer>, size: nat): (c: Option<Canvas>)
    requires ValidLayers(layers, size)
    ensures c.Some? ==> ValidCanvas(c.value, size)
  {
    if layers == [] then None
    else
      var n := |layers| - 1;
      var below := Folded(layers[..n], size);
      CompositeValid(below, layers[n].tile, n > 0, layers[n].opacity, size);
      Composite(below, layers[n].tile, n > 0, layers[n].opacity, size)
  }

  function Channel(p: Pixel, c: nat): int
    requires c < 3
  {
    if c == 0 then p.b else if c == 1 then p.g else p.r
  }

  /** Channel `c` of pixel `i` of some tile among the layers is at most, or at least, `x`. */
  ghost predicate Reaches(layers: seq<Layer>, i: nat, c: nat, low: bool, x: int)
    requires c < 3
  {
    exists k :: 0 <= k < |layers| && layers[k].tile.Some? && i < |layers[k].tile.value.px| &&
      (if low then Channel(layers[k].tile.value.px[i], c) <= x else Channel(layers[k].tile.value.px[i], c) >= x)
  }

  lemma ReachesMore(layers: seq<Layer>, n: nat, i: nat, c: nat, low: bool, x: int, y: int)
    requires c < 3 && n <= |layers| && Reaches(layers[..n], i, c, low, x)
    requires if low then x <= y else x >= y
    ensures Reaches(layers, i, c, low, y)
  {
    var k :| 0 <= k < n && layers[..n][k].tile.Some? && i < |layers[..n][k].tile.value.px| &&
             (if low then Channel(layers[..n][k].tile.value.px[i], c) <= x
              else Channel(layers[..n][k].tile.value.px[i], c) >= x);
    assert layers[..n][k] == layers[k];
  }

  lemma ReachesTop(layers: seq<Layer>, i: nat, c: nat, low: bool, y: int)
    requires c < 3 && layers != [] && layers[|layers| - 1].tile.Some? && i < |layers[|layers| - 1].tile.value.px|
    requires var top := Channel(layers[|layers| - 1].tile.value.px[i], c); if low then top <= y else top >= y
    ensures Reaches(layers, i, c, low, y)
  {
    var k := |layers| - 1;
    assert 0 <= k < |layers| && layers[k].tile.Some?;
  }

  /**
   Folding any list of layers keeps every channel of every pixel inside the span of that channel over the fetched tiles:
   nothing overshoots, so nothing is ever clipped, and there is a picture exactly if some tile was fetched.
   */
  lemma {:induction false} FoldedInSpan(layers: seq<Layer>, size: nat, i: nat, c: nat)
    requires ValidLayers(layers, size) && i < size && c < 3
    ensures Folded(layers, size).Some? <==> exists k :: 0 <= k < |layers| && layers[k].tile.Some?
    ensures Folded(layers, size).Some? ==>
              var x := Channel(Folded(layers, size).value[i], c);
              Reaches(layers, i, c, true, x) && Reaches(layers, i, c, false, x)
    decreases |layers|
  {
    if layers != [] {
      var n := |layers| - 1;
      var below := Folded(layers[..n], size);
      FoldedInSpan(layers[..n], size, i, c);
      CompositeValid(below, layers[n].tile, n > 0, layers[n].opacity, size);
      assert forall k :: 0 <= k < n ==> layers[..n][k] == layers[k];
      if layers[n].tile.None? {
        if below.Some? {
          ReachesMore(layers, n, i, c, true, Channel(below.value[i], c), Channel(below.value[i], c));
          ReachesMore(layers, n, i, c, false, Channel(below.value[i], c), Channel(below.value[i], c));
        }
      } else {
        TopInSpan(layers, size, i, c);
      }
    }
  }

  /** One overlay on what the layers below gave. */
  lemma TopInSpan(layers: seq<Layer>, size: nat, i: nat, c: nat)
    requires layers != [] && ValidLayers(layers, size) && i < size && c < 3 && layers[|layers| - 1].tile.Some?
    requires var rest := layers[..|layers| - 1];
             var below := Folded(rest, size);
             below.Some? ==> var x := Channel(below.value[i], c);
                             Reaches(rest, i, c, true, x) && Reaches(rest, i, c, false, x)
    ensures Folded(layers, size).Some?
    ensures var y := Channel(Folded(layers, size).value[i], c);
            Reaches(layers, i, c, true, y) && Reaches(layers, i, c, false, y)
  {
    var n := |layers| - 1;
    var below, top := Folded(layers[..n], size), layers[n].tile.value;
    var y, f := Channel(Folded(layers, size).value[i], c), Channel(top.px[i], c);
    if below.None? || n == 0 {
      ReachesTop(layers, i, c, true, y);
      ReachesTop(layers, i, c, false, y);
    } else {
      var x := Channel(below.value[i], c);
      AlphaIsFraction(top, i, layers[n].opacity, size);
      BlendPixelValid(below.value[i], top.px[i], AlphaAt(top, i, layers[n].opacity));
      assert Between(x, y, f);
      if x <= y { ReachesMore(layers, n, i, c, true, x, y); } else { ReachesTop(layers, i, c, true, y); }
      if x >= y { ReachesMore(layers, n, i, c, false, x, y); } else { ReachesTop(layers, i, c, false, y); }
    }
  }

  /** A tile whose alpha is zero everywhere, by its own channel, by darkness, or by opacity. */
  predicate Invisible(l: Layer, size: nat)
    requires ValidLayer(l, size)
  {
    l.tile.Some? && forall i :: 0 <= i < size ==> AlphaAt(l.tile.value, i, l.opacity) == 0.0
  }

  /** A tile whose alpha is one everywhere. */
  predicate Covering(l: Layer, size: nat)
    requires ValidLayer(l, size)
  {
    l.tile.Some? && forall i :: 0 <= i < size ==> AlphaAt(l.tile.value, i, l.opacity) == 1.0
  }

  /** On top of a picture an invisible layer changes nothing. */
  lemma InvisibleChangesNothing(layers: seq<Layer>, top: Layer, size: nat)
    requires ValidLayers(layers, size) && ValidLayer(top, size) && Invisible(top, size)
    requires Folded(layers, size).Some?
    ensures ValidLayers(layers + [top], size) && Folded(layers + [top], size) == Folded(layers, size)
  {
    var all := layers + [top];
    assert all[..|layers|] == layers && layers != [];
    assert Folded(all, size) == Composite(Folded(layers, size), top.tile, true, top.opacity, size);
    forall i | 0 <= i < size
      ensures Folded(all, size).value[i] == Folded(layers, size).value[i]
    {
      BlendPixelValid(Folded(layers, size).value[i], top.tile.value.px[i], AlphaAt(top.tile.value, i, top.opacity));
    }
    assert Folded(all, size).value == Folded(layers, size).value;
  }

  /** A covering layer makes the result independent of everything below it, whatever comes on top. */
  lemma {:induction false} CoveringHidesBelow(below: seq<Layer>, other: seq<Layer>, cover: Layer, above: seq<Layer>,
                                              size: nat)
    requires ValidLayers(below + [cover] + above, size) && ValidLayers(other + [cover] + above, size)
    requires ValidLayer(cover, size) && Covering(cover, size)
    ensures Folded(below + [cover] + above, size) == Folded(other + [cover] + above, size)
    decreases |above|
  {
    var a, b := below + [cover] + above, other + [cover] + above;
    if above == [] {
      assert a == below + [cover] && b == other + [cover];
      CoverIsShown(below, cover, size);
      CoverIsShown(other, cover, size);
    } else {
      var n := |above| - 1;
      assert a[..|a| - 1] == below + [cover] + above[..n] && b[..|b| - 1] == other + [cover] + above[..n];
      assert forall k :: 0 <= k < |a| - 1 ==> a[..|a| - 1][k] == a[k];
      assert forall k :: 0 <= k < |b| - 1 ==> b[..|b| - 1][k] == b[k];
      CoveringHidesBelow(below, other, cover, above[..n], size);
    }
  }

  lemma CoverIsShown(below: seq<Layer>, cover: Layer, size: nat)
    requires ValidLayers(below + [cover], size) && ValidLayer(cover, size) && Covering(cover, size)
    ensures Folded(below + [cover], size) == Some(cover.tile.value.px)
  {
    var all := below + [cover];
    assert all[..|below|] == below && forall k :: 0 <= k < |below| ==> all[k] == below[k];
    var under := Folded(below, size);
    assert Folded(all, size) == Composite(under, cover.tile, |below| > 0, cover.opacity, size);
    if under.Some? && below != [] {
      forall i | 0 <= i < size
        ensures Folded(all, size).value[i] == cover.tile.value.px[i]
      {
        BlendPixelValid(under.value[i], cover.tile.value.px[i], AlphaAt(cover.tile.value, i, cover.opacity));
      }
      assert Folded(all, size).value == cover.tile.value.px;
    }
  }

  lemma TopPixel(layers: seq<Layer>, top: Layer, size: nat, i: nat)
    requires ValidLayers(layers, size) && ValidLayer(top, size) && top.tile.Some? && i < size
    requires Folded(layers, size).Some?
    ensures ValidLayers(layers + [top], size) && Folded(layers + [top], size).Some?
    ensures Folded(layers + [top], size).value[i] ==
            BlendPixel(Folded(layers, size).value[i], top.tile.value.px[i], AlphaAt(top.tile.value, i, top.opacity))
  {
    var all := layers + [top];
    assert all[..|layers|] == layers && layers != [];
    assert Folded(all, size) == Composite(Folded(layers, size), top.tile, true, top.opacity, size);
  }

  /**
   What a transparent tile does to each pixel of the picture below it, in terms of the alpha it carries: none keeps the
   pixel at any opacity, a full one at full opacity replaces it, and any other mixes the two in that proportion.
   */
  lemma TransparentPixel(layers: seq<Layer>, top: Layer, size: nat, i: nat, w: real)
    requires ValidLayers(layers, size) && ValidLayer(top, size) && i < size && Folded(layers, size).Some?
    requires top.tile.Some? && top.tile.value.Transparent? && w == top.tile.value.alpha[i] as real * top.opacity
    ensures ValidLayers(layers + [top], size) && Folded(layers + [top], size).Some?
    ensures var below, out := Folded(layers, size).value[i], Folded(layers + [top], size).value[i];
            var px, a := top.tile.value.px[i], top.tile.value.alpha[i];
            && (a == 0 ==> out == below)
            && (a == 255 && top.opacity == 1.0 ==> out == px)
            && PixelMixes(out, w, 255.0, px, below)
  {
    TopPixel(layers, top, size, i);
    var below, px, a := Folded(layers, size).value[i], top.tile.value.px[i], top.tile.value.alpha[i];
    AlphaEnds(below, px, a, top.opacity);
    AlphaPixel(below, px, a, top.opacity, w);
  }

  /** A tile without alpha is seen where it is brighter than 10 in all, at the layer's opacity, and nowhere else. */
  lemma OpaquePixel(layers: seq<Layer>, top: Layer, size: nat, i: nat)
    requires ValidLayers(layers, size) && ValidLayer(top, size) && i < size && Folded(layers, size).Some?
    requires top.tile.Some? && top.tile.value.Opaque?
    ensures ValidLayers(layers + [top], size) && Folded(layers + [top], size).Some?
    ensures var below, out := Folded(layers, size).value[i], Folded(layers + [top], size).value[i];
            var px, w := top.tile.value.px[i], top.opacity;
            var bright := px.b + px.g + px.r > 10;
            && (!bright ==> out == below)
            && (bright && w == 1.0 ==> out == px)
            && (bright ==> PixelMixes(out, w, 1.0, px, below))
  {
    TopPixel(layers, top, size, i);
    var below, px := Folded(layers, size).value[i], top.tile.value.px[i];
    if px.b + px.g + px.r > 10 {
      MaskEnds(below, px, top.opacity);
      MaskFloors(below, px, top.opacity);
    } else {
      MaskEnds(below, px, 0.0);
    }
  }

  /** A layer without a tile leaves no trace. */
  lemma MissingTileChangesNothing(layers: seq<Layer>, top: Layer, size: nat)
    requires ValidLayers(layers, size) && ValidLayer(top, size) && top.tile.None?
    ensures ValidLayers(layers + [top], size) && Folded(layers + [top], size) == Folded(layers, size)
  {
    assert (layers + [top])[..|layers|] == layers;
  }

  /** The lowest layer for which a tile was fetched. */
  predicate Lowest(layers: seq<Layer>, k: nat) {
    k < |layers| && layers[k].tile.Some? && forall i :: 0 <= i < k ==> layers[i].tile.None?
  }

  lemma {:induction false} NoTileNoPicture(layers: seq<Layer>, size: nat)
    requires ValidLayers(layers, size) && forall i :: 0 <= i < |layers| ==> layers[i].tile.None?
    ensures Folded(layers, size) == None
    decreases |layers|
  {
    if layers != [] {
      NoTileNoPicture(layers[..|layers| - 1], size);
    }
  }

  /**
   The lowest fetched tile is taken as it is, even if it is an overlay that happens to have nothing below it: its
   opacity and its alpha channel make no difference to the picture of all layers.
   */
  lemma {:induction false} LowestIsTakenWhole(layers: seq<Layer>, k: nat, other: Layer, size: nat)
    requires Lowest(layers, k) && other.tile.Some? && other.tile.value.px == layers[k].tile.value.px
    requires ValidLayers(layers, size) && ValidLayer(other, size)
    ensures ValidLayers(layers[k := other], size) && Folded(layers[k := other], size) == Folded(layers, size)
    decreases |layers|
  {
    var n, changed := |layers| - 1, layers[k := other];
    if k == n {
      assert changed[..n] == layers[..n];
      NoTileNoPicture(layers[..n], size);
    } else {
      assert changed[..n] == layers[..n][k := other] && changed[n] == layers[n];
      LowestIsTakenWhole(layers[..n], k, other, size);
    }
  }

  /** The layer loop as the program runs it. */
  method CompositeLayers(layers: seq<Layer>, size: nat) returns (frame: Option<Canvas>)
    requires ValidLayers(layers, size)
    ensures frame == Folded(layers, size)
  {
    frame := None;
    for idx := 0 to |layers|
      invariant frame == Folded(layers[..idx], size)
    {
      assert layers[..idx + 1][..idx] == layers[..idx];
      if layers[idx].tile.Some? {
        frame := Composite(frame, layers[idx].tile, idx > 0, layers[idx].opacity, size);
      }
    }
    assert layers[..|layers|] == layers;
  }
}
