/** Scale-to-fit placement of one image on a page (the arithmetic in the page
    loop of `generatePDF`), on exact real numbers. */
module Layout {

  /** A rectangle on the page: top-left corner, width and height. */
  datatype Placement = Placement(x: real, y: real, w: real, h: real)

  /** The image is relatively wider than the page, so its width is the binding one. */
  predicate WidthBound(imgW: real, imgH: real, pageW: real, pageH: real)
    requires imgH > 0.0 && pageH > 0.0
  {
    imgW / imgH > pageW / pageH
  }

  /** `h / w` stays that of the image and the rectangle lies inside the page. */
  predicate FitsPage(p: Placement, imgW: real, imgH: real, pageW: real, pageH: real)
  {
    0.0 <= p.x && 0.0 <= p.y && p.x + p.w <= pageW && p.y + p.h <= pageH
    && p.w * imgH == p.h * imgW
  }

  function FitCentered(imgW: real, imgH: real, pageW: real, pageH: real): (p: Placement)
    requires imgW > 0.0 && imgH > 0.0 && pageW > 0.0 && pageH > 0.0
    ensures WidthBound(imgW, imgH, pageW, pageH) ==> p.w == pageW
    ensures !WidthBound(imgW, imgH, pageW, pageH) ==> p.h == pageH
    ensures p.w > 0.0 && p.h > 0.0 && p.w / p.h == imgW / imgH
    ensures FitsPage(p, imgW, imgH, pageW, pageH)
    ensures p.x == pageW - (p.x + p.w) && p.y == pageH - (p.y + p.h)
  {
    var imgRatio := imgW / imgH;
    var pageRatio := pageW / pageH;
    var w := if imgRatio > pageRatio then pageW else pageH * imgRatio;
    var h := if imgRatio > pageRatio then w / imgRatio else pageH;
    RatioFacts(imgW, imgH, pageW, pageH, w, h);
    Placement((pageW - w) / 2.0, (pageH - h) / 2.0, w, h)
  }

  /** The arithmetic behind FitCentered's contract, branch by branch. */
  lemma RatioFacts(imgW: real, imgH: real, pageW: real, pageH: real, w: real, h: real)
    requires imgW > 0.0 && imgH > 0.0 && pageW > 0.0 && pageH > 0.0
    requires imgW / imgH > pageW / pageH ==> w == pageW && h == w / (imgW / imgH)
    requires imgW / imgH <= pageW / pageH ==> h == pageH && w == h * (imgW / imgH)
    ensures w > 0.0 && h > 0.0 && w <= pageW && h <= pageH
    ensures w * imgH == h * imgW && w / h == imgW / imgH
  {
    var r := imgW / imgH;
    assert r * imgH == imgW;
    assert (pageW / pageH) * pageH == pageW;
    if r > pageW / pageH {
      assert h * r == w;
      assert pageW < r * pageH;
      assert h * r < r * pageH;
      assert h < pageH;
    } else {
      assert w == pageH * r;
      assert r * pageH <= pageW;
    }
    assert w == h * r;
  }

  /** The placement is the largest one that fits: any rectangle with the
      image's proportions that lies inside the page is at most as wide and as
      tall as the chosen one. */
  lemma FitIsLargest(imgW: real, imgH: real, pageW: real, pageH: real, q: Placement)
    requires imgW > 0.0 && imgH > 0.0 && pageW > 0.0 && pageH > 0.0
    requires FitsPage(q, imgW, imgH, pageW, pageH)
    ensures q.w <= FitCentered(imgW, imgH, pageW, pageH).w
    ensures q.h <= FitCentered(imgW, imgH, pageW, pageH).h
  {
    var p := FitCentered(imgW, imgH, pageW, pageH);
    assert q.w <= pageW && q.h <= pageH by {
      assert 0.0 <= q.x && 0.0 <= q.y;
    }
    if WidthBound(imgW, imgH, pageW, pageH) {
      assert q.h * imgW == q.w * imgH;
      assert p.h * imgW == pageW * imgH;
      assert q.h * imgW <= p.h * imgW;
    } else {
      assert q.w * imgH == q.h * imgW;
      assert p.w * imgH == pageH * imgW;
      assert q.w * imgH <= p.w * imgH;
    }
  }

  /** On an A4 portrait page of 210 × 297, an 800 × 600 landscape image is
      width-bound: full width, height 157.5, centred 69.75 from the top. */
  lemma LandscapeOnA4()
    ensures FitCentered(800.0, 600.0, 210.0, 297.0) == Placement(0.0, 69.75, 210.0, 157.5)
  {
    assert 800.0 / 600.0 > 210.0 / 297.0;
  }
}
