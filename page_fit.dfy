/**
 * The page-fit layout of CaptureThread.run: a captured image of
 * imgWidth x imgHeight pixels is scaled, keeping its aspect ratio, into a
 * 277 x 190 mm box and centred on a landscape A4 page of 297 x 210 mm.
 * Arithmetic is over exact reals.
 */
module PageFit {
  import opened Options

  const PageWidth: real := 297.0
  const PageHeight: real := 210.0
  const BoxWidth: real := 277.0
  const BoxHeight: real := 190.0

  /** Where the image is drawn on its page, in millimetres. */
  datatype Placement = Placement(x: real, y: real, width: real, height: real)

  predicate FitsBox(p: Placement)
  {
    0.0 <= p.width <= BoxWidth && 0.0 <= p.height <= BoxHeight
  }

  /** The image fills the box in at least one direction. */
  predicate TouchesBox(p: Placement)
  {
    p.width == BoxWidth || p.height == BoxHeight
  }

  /** The drawn size has the image's aspect ratio (cross-multiplied). */
  predicate KeepsAspect(p: Placement, imgWidth: nat, imgHeight: nat)
  {
    p.height * imgWidth as real == p.width * imgHeight as real
  }

  /** Equal margins left and right, and top and bottom, of at least 10 mm. */
  predicate Centred(p: Placement)
  {
    p.x + p.width + p.x == PageWidth && p.y + p.height + p.y == PageHeight &&
    p.x >= 10.0 && p.y >= 10.0
  }

  /**
   * The layout. A zero image width makes the aspect-ratio division raise
   * (ZeroDivisionError), modelled as None.
   */
  function Fit(imgWidth: nat, imgHeight: nat): (r: Option<Placement>)
    ensures r.None? <==> imgWidth == 0
  {
    if imgWidth == 0 then None
    else
      var w, h := imgWidth as real, imgHeight as real;
      var aspect := h / w;
      var pdfHeight := BoxWidth * aspect;
      if pdfHeight > BoxHeight then
        var pdfWidth := BoxHeight / aspect;
        Some(Placement((PageWidth - pdfWidth) / 2.0, (PageHeight - BoxHeight) / 2.0, pdfWidth, BoxHeight))
      else
        Some(Placement((PageWidth - BoxWidth) / 2.0, (PageHeight - pdfHeight) / 2.0, BoxWidth, pdfHeight))
  }

  /**
   * For a non-empty image the placement fits the box, fills it in one
   * direction, keeps the image's aspect ratio and is centred with margins
   * of at least 10 mm.
   */
  lemma FitPlacement(imgWidth: nat, imgHeight: nat)
    requires imgWidth > 0
    ensures var p := Fit(imgWidth, imgHeight).value;
      FitsBox(p) && TouchesBox(p) && Centred(p) && KeepsAspect(p, imgWidth, imgHeight) && p.width > 0.0
  {
    var w, h := imgWidth as real, imgHeight as real;
    var aspect := h / w;
    var pdfHeight := BoxWidth * aspect;
    if pdfHeight > BoxHeight {
      AspectRescale(w, h, aspect);
    } else {
      assert pdfHeight * w == BoxWidth * h;
    }
  }

  /** Scaling by a positive factor keeps a strict order, and undoes it. */
  lemma ScaleOrder(a: real, b: real, c: real)
    requires c > 0.0
    ensures a < b <==> a * c < b * c
    ensures a <= b <==> a * c <= b * c
  {
  }

  /** The width branch of Fit: dividing the box height by the aspect ratio. */
  lemma AspectRescale(w: real, h: real, aspect: real)
    requires w > 0.0 && aspect == h / w && BoxWidth * aspect > BoxHeight
    ensures h > 0.0 && aspect > 0.0
    ensures 0.0 < BoxHeight / aspect < BoxWidth
    ensures BoxHeight * w == (BoxHeight / aspect) * h
  {
    assert aspect * w == h;
    var q := BoxHeight / aspect;
    assert q * aspect == BoxHeight;
    ScaleOrder(q, BoxWidth, aspect);
    calc {
      q * h;
      q * (aspect * w);
      (q * aspect) * w;
      BoxHeight * w;
    }
  }

  /**
   * Fit is the largest aspect-preserving size that fits the box: any scale
   * s >= 0 that keeps the scaled image inside the box gives a width and a
   * height no larger than Fit's.
   */
  lemma FitIsLargest(imgWidth: nat, imgHeight: nat, s: real)
    requires imgWidth > 0 && s >= 0.0
    requires s * imgWidth as real <= BoxWidth && s * imgHeight as real <= BoxHeight
    ensures s * imgWidth as real <= Fit(imgWidth, imgHeight).value.width
    ensures s * imgHeight as real <= Fit(imgWidth, imgHeight).value.height
  {
    FitPlacement(imgWidth, imgHeight);
    var p := Fit(imgWidth, imgHeight).value;
    var w, h := imgWidth as real, imgHeight as real;
    assert (s * w) * h == (s * h) * w;
    if p.height == BoxHeight {
      assert h > 0.0;
      assert (s * w) * h <= p.width * h;
      ScaleOrder(s * w, p.width, h);
    } else {
      assert (s * h) * w <= p.height * w;
      ScaleOrder(s * h, p.height, w);
    }
  }

  /**
   * The constraints in Fit's contract pin the size down: any placement that
   * fits the box, touches it and keeps the aspect ratio has Fit's size.
   */
  lemma FitIsUnique(imgWidth: nat, imgHeight: nat, q: Placement)
    requires imgWidth > 0
    requires FitsBox(q) && TouchesBox(q) && KeepsAspect(q, imgWidth, imgHeight)
    ensures q.width == Fit(imgWidth, imgHeight).value.width
    ensures q.height == Fit(imgWidth, imgHeight).value.height
  {
    FitPlacement(imgWidth, imgHeight);
    var p := Fit(imgWidth, imgHeight).value;
    var w, h := imgWidth as real, imgHeight as real;
    // q is the image scaled by s, Fit's placement the image scaled by t
    var s, t := q.width / w, p.width / w;
    assert s * w == q.width && t * w == p.width;
    assert s * h == q.height by {
      assert (s * h) * w == (s * w) * h;
      ScaleOrder(s * h, q.height, w);
    }
    assert t * h == p.height by {
      assert (t * h) * w == (t * w) * h;
      ScaleOrder(t * h, p.height, w);
    }
    FitIsLargest(imgWidth, imgHeight, s);
    ScaleOrder(s, t, w);
    // s <= t; the side q touches gives t <= s
    if q.width == BoxWidth {
      ScaleOrder(t, s, w);
    } else {
      assert h > 0.0;
      ScaleOrder(t, s, h);
    }
  }
}
