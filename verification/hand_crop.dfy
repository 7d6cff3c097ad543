/** One pass of the sign recognizer's frame loop (Sign-Language/Code/final.py,
    lines 38-54) after the OpenCV steps: the area gate on the largest contour,
    the hand's bounding box inside the fixed capture region, the padding that
    makes the crop nearly square, and the predicted class. Contour finding,
    bounding boxes, border filling, resizing and the model are foreign calls:
    their outputs are inputs here. */
module HandCrop {
  import opened Common
  import opened Scores

  datatype Rect = Rect(x: int, y: int, w: nat, h: nat)

  /** The capture region, outlined on screen and cropped from the mask. */
  const Region := Rect(300, 100, 300, 300)

  const MinHandArea: real := 5000.0

  /** A contour with its `cv2.contourArea` and `cv2.boundingRect`. */
  datatype Contour = Contour(area: real, bounds: Rect)

  function Areas(contours: seq<Contour>): (a: seq<real>)
    ensures |a| == |contours|
    ensures forall k :: 0 <= k < |a| ==> a[k] == contours[k].area
  {
    seq(|contours|, k requires 0 <= k < |contours| => contours[k].area)
  }

  /** Lines 40-42: `max(contours, key=cv2.contourArea)` is the first contour of
      largest area; it is used only when its area exceeds 5000. */
  function SelectHand(contours: seq<Contour>): (r: Option<Contour>)
    ensures r.Some? <==> |contours| > 0 && exists c :: c in contours && c.area > MinHandArea
    ensures r.Some? ==> r.value in contours && r.value.area > MinHandArea
    ensures r.Some? ==> forall c :: c in contours ==> c.area <= r.value.area
    ensures r.Some? ==> exists k :: 0 <= k < |contours| && contours[k] == r.value
                                   && forall j :: 0 <= j < k ==> contours[j].area < r.value.area
  {
    if |contours| == 0 then None
    else
      var k := ArgMax(Areas(contours));
      var best := contours[k];
      if best.area > MinHandArea then Some(best)
      else
        assert forall c :: c in contours ==> c.area <= best.area;
        None
  }

  /** A rectangle lies within a `width` by `height` image. */
  predicate Within(r: Rect, width: nat, height: nat) {
    0 <= r.x && r.x + r.w <= width && 0 <= r.y && r.y + r.h <= height
  }

  /** `r` lies inside `outer`. */
  predicate Inside(r: Rect, outer: Rect) {
    outer.x <= r.x && r.x + r.w <= outer.x + outer.w && outer.y <= r.y && r.y + r.h <= outer.y + outer.h
  }

  /** Lines 38 and 44: the bounding box, found in the region's crop, placed in frame coordinates. */
  function CropInFrame(bounds: Rect): (r: Rect)
    ensures r.w == bounds.w && r.h == bounds.h
    ensures Within(bounds, Region.w, Region.h) ==> Inside(r, Region)
  {
    Rect(Region.x + bounds.x, Region.y + bounds.y, bounds.w, bounds.h)
  }

  /** Rows above and below, columns left and right added by `copyMakeBorder`. */
  datatype Padding = Padding(top: nat, bottom: nat, left: nat, right: nat)

  /** Lines 45-48: the shorter side is padded by `int((long - short) / 2)` on each end. */
  function SquarePadding(w: nat, h: nat): (p: Padding)
    ensures w > h ==> p == Padding((w - h) / 2, (w - h) / 2, 0, 0)
    ensures h > w ==> p == Padding(0, 0, (h - w) / 2, (h - w) / 2)
    ensures w == h ==> p == Padding(0, 0, 0, 0)
  {
    if w > h then Padding((w - h) / 2, (w - h) / 2, 0, 0)
    else if h > w then Padding(0, 0, (h - w) / 2, (h - w) / 2)
    else Padding(0, 0, 0, 0)
  }

  /** The padded crop keeps its longer side, its sides differ by at most one,
      and it is square exactly when the sides differed by an even amount. */
  lemma PaddedNearlySquare(w: nat, h: nat)
    ensures var p := SquarePadding(w, h);
      var pw, ph := w + p.left + p.right, h + p.top + p.bottom;
      && (if w >= h then pw == w else ph == h)
      && (if w >= h then ph <= w else pw <= h)
      && -1 <= pw - ph <= 1
      && (pw == ph <==> (w - h) % 2 == 0)
  {
    var p := SquarePadding(w, h);
    if w > h {
      var d := w - h;
      assert h + 2 * (d / 2) == w - d % 2;
    } else if h > w {
      var d := h - w;
      assert w + 2 * (d / 2) == h - d % 2;
      assert (w - h) % 2 == 0 <==> d % 2 == 0;
    }
  }

  /** What one frame yields: no hand, a predicted class, or the exception
      `np.argmax` raises on an empty output. */
  datatype FrameOutcome = NoHand | Predicted(cls: nat) | Failed(message: string)

  /** Lines 40-52. `classify` stands for cropping, padding, resizing and
      `model.predict` on the hand's box, returning the flattened output. */
  function RecogniseHand(contours: seq<Contour>, classify: (Rect, Padding) -> seq<real>): (r: FrameOutcome)
    ensures SelectHand(contours).None? <==> r.NoHand?
    ensures SelectHand(contours).Some? ==>
              var b := SelectHand(contours).value.bounds;
              var scores := classify(b, SquarePadding(b.w, b.h));
              && (|scores| == 0 ==> r == Failed("attempt to get argmax of an empty sequence"))
              && (|scores| > 0 ==> r.Predicted? && r.cls < |scores|
                                   && (forall j :: 0 <= j < |scores| ==> scores[j] <= scores[r.cls])
                                   && (forall j :: 0 <= j < r.cls ==> scores[j] < scores[r.cls]))
  {
    match SelectHand(contours)
    case None => NoHand
    case Some(hand) =>
      var b := hand.bounds;
      var scores := classify(b, SquarePadding(b.w, b.h));
      if |scores| == 0 then Failed("attempt to get argmax of an empty sequence")
      else Predicted(ArgMax(scores))
  }
}
