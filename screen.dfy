/** Lite.Graphics.Screen: the virtual screen size and the letterbox
    rectangle that fits it into the window's backbuffer. */
module Screens {
  import opened Primitives
  import opened Xna

  /** width / height as a float quotient of two ints. */
  function Aspect(width: int, height: int): real
    requires height != 0
  {
    width as real / height as real
  }

  /** The sizes for which the float arithmetic stays finite: both heights are
      nonzero, and a screen wider than the backbuffer has a nonzero width. */
  predicate FiniteLetterbox(screenWidth: int, screenHeight: int, backbufferWidth: int, backbufferHeight: int) {
    screenHeight != 0 && backbufferHeight != 0 &&
    (Aspect(screenWidth, screenHeight) > Aspect(backbufferWidth, backbufferHeight) ==> screenWidth != 0)
  }

  /** The destination rectangle before the four casts to int. */
  datatype Letterbox = Letterbox(rx: real, ry: real, rw: real, rh: real)

  /** The branches of CalculateDestinationRectangle: a screen wider than the
      backbuffer keeps the backbuffer width and is centred vertically, a
      narrower one keeps the backbuffer height and is centred horizontally,
      and an equal aspect ratio uses the whole backbuffer. */
  function LetterboxOf(screenWidth: int, screenHeight: int, backbufferWidth: int, backbufferHeight: int): Letterbox
    requires FiniteLetterbox(screenWidth, screenHeight, backbufferWidth, backbufferHeight)
  {
    var backbufferAspect := Aspect(backbufferWidth, backbufferHeight);
    var screenAspect := Aspect(screenWidth, screenHeight);
    var w := backbufferWidth as real;
    var h := backbufferHeight as real;
    if screenAspect > backbufferAspect then
      var rh := w / screenAspect;
      Letterbox(0.0, (h - rh) / 2.0, w, rh)
    else if screenAspect < backbufferAspect then
      var rw := h * screenAspect;
      Letterbox((w - rw) / 2.0, 0.0, rw, h)
    else
      Letterbox(0.0, 0.0, w, h)
  }

  /** On positive sizes the letterbox lies inside the backbuffer, is centred
      in it, fills it along one axis and has the screen's aspect ratio. */
  lemma LetterboxFitsBackbuffer(screenWidth: int, screenHeight: int, backbufferWidth: int, backbufferHeight: int)
    requires screenWidth > 0 && screenHeight > 0 && backbufferWidth > 0 && backbufferHeight > 0
    ensures FiniteLetterbox(screenWidth, screenHeight, backbufferWidth, backbufferHeight)
    ensures var l := LetterboxOf(screenWidth, screenHeight, backbufferWidth, backbufferHeight);
      var w := backbufferWidth as real;
      var h := backbufferHeight as real;
      0.0 < l.rw <= w && 0.0 < l.rh <= h &&
      0.0 <= l.rx && 0.0 <= l.ry &&
      2.0 * l.rx + l.rw == w && 2.0 * l.ry + l.rh == h &&
      (l.rw == w || l.rh == h) &&
      l.rw == l.rh * Aspect(screenWidth, screenHeight)
  {
    var w := backbufferWidth as real;
    var h := backbufferHeight as real;
    var sa := Aspect(screenWidth, screenHeight);
    var ba := Aspect(backbufferWidth, backbufferHeight);
    QuotientTimes(w, h);
    QuotientPositive(screenWidth as real, screenHeight as real);
    if sa > ba {
      var rh := w / sa;
      QuotientTimes(w, sa);
      QuotientPositive(w, sa);
      AspectBound(rh, h, sa, ba, w);
    } else if sa < ba {
      ProductPositive(h, sa);
      ProductBelow(h, sa, ba);
    } else {
      assert h * sa == w;
    }
  }

  lemma QuotientPositive(x: real, y: real)
    requires x > 0.0 && y > 0.0
    ensures x / y > 0.0
  {
  }

  /** In a wide screen, rh * sa == w == h * ba with sa > ba gives rh < h. */
  lemma AspectBound(rh: real, h: real, sa: real, ba: real, w: real)
    requires rh > 0.0 && h > 0.0 && ba > 0.0 && sa > ba
    requires rh * sa == w && ba * h == w
    ensures rh < h
  {
    if rh >= h {
      calc {
        w;
      == rh * sa;
      >= h * sa;
      >  h * ba;
      }
    }
  }

  /** In a narrow screen, h * sa < h * ba. */
  lemma ProductBelow(h: real, sa: real, ba: real)
    requires h > 0.0 && sa < ba
    ensures h * sa < h * ba
  {
  }

  /** The equal and the two unequal aspect ratios, branch by branch. */
  lemma LetterboxCases(screenWidth: int, screenHeight: int, backbufferWidth: int, backbufferHeight: int)
    requires FiniteLetterbox(screenWidth, screenHeight, backbufferWidth, backbufferHeight)
    ensures var l := LetterboxOf(screenWidth, screenHeight, backbufferWidth, backbufferHeight);
      var sa := Aspect(screenWidth, screenHeight);
      var ba := Aspect(backbufferWidth, backbufferHeight);
      var w := backbufferWidth as real;
      var h := backbufferHeight as real;
      (sa == ba ==> l == Letterbox(0.0, 0.0, w, h)) &&
      (sa > ba ==> l.rx == 0.0 && l.rw == w && l.rh * sa == w && l.ry == (h - l.rh) / 2.0) &&
      (sa < ba ==> l.ry == 0.0 && l.rh == h && l.rw == h * sa && l.rx == (w - l.rw) / 2.0)
  {
    var sa := Aspect(screenWidth, screenHeight);
    if sa > Aspect(backbufferWidth, backbufferHeight) {
      QuotientTimes(backbufferWidth as real, sa);
    }
  }

  /** Screen: the virtual resolution the game draws at. The Game reference
      it keeps only for the backbuffer size, which is a parameter here. */
  class Screen {
    const width: int
    const height: int

    constructor (width: int, height: int)
      ensures this.width == width && this.height == height
    {
      this.width := width;
      this.height := height;
    }

    /** The letterbox for a backbuffer of the given size, each coordinate
        cast to int: the whole backbuffer when the aspect ratios agree, and on
        positive sizes a rectangle inside the backbuffer. */
    function CalculateDestinationRectangle(backbufferWidth: int, backbufferHeight: int): (r: Rectangle)
      requires FiniteLetterbox(width, height, backbufferWidth, backbufferHeight)
      ensures Aspect(width, height) == Aspect(backbufferWidth, backbufferHeight) ==>
        r == Rectangle(0, 0, backbufferWidth, backbufferHeight)
      ensures width > 0 && height > 0 && backbufferWidth > 0 && backbufferHeight > 0 ==>
        0 <= r.x && 0 <= r.y && 0 <= r.width && 0 <= r.height &&
        r.x + r.width <= backbufferWidth && r.y + r.height <= backbufferHeight
    {
      var l := LetterboxOf(width, height, backbufferWidth, backbufferHeight);
      if width > 0 && height > 0 && backbufferWidth > 0 && backbufferHeight > 0 then
        LetterboxFitsBackbuffer(width, height, backbufferWidth, backbufferHeight);
        Rectangle(Truncate(l.rx), Truncate(l.ry), Truncate(l.rw), Truncate(l.rh))
      else
        Rectangle(Truncate(l.rx), Truncate(l.ry), Truncate(l.rw), Truncate(l.rh))
    }
  }
}
