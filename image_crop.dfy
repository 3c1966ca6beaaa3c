/** The profile-photo crop (components/ImageCropModal.tsx): the largest
    centred square of the loaded image is drawn onto a 256 by 256 canvas.
    Image loading, the canvas and the JPEG encoding are not modelled; the
    image's pixel size is the input. */
module ImageCrop {

  const CropSize := 256

  /** A rectangle in pixels: its corner, width and height. */
  datatype Rect = Rect(x: real, y: real, width: real, height: real)

  function Min(a: real, b: real): real {
    if a <= b then a else b
  }

  /** The aspect ratio exceeds the square canvas's exactly when the image is
      wider than it is high. */
  lemma WiderIffRatioAboveOne(width: real, height: real)
    requires height > 0.0
    ensures width / height > 1.0 <==> width > height
  {
    var ratio := width / height;
    assert width == ratio * height;
    if ratio > 1.0 {
      assert ratio * height > 1.0 * height;
    } else {
      assert ratio * height <= 1.0 * height;
    }
  }

  /** The arguments of `drawImage` in `handleSave`'s load callback: the
      source rectangle chosen by the aspect-ratio branch, and the whole
      canvas as destination. */
  method CenterCrop(imageWidth: nat, imageHeight: nat) returns (source: Rect, dest: Rect)
    requires imageWidth > 0 && imageHeight > 0
    ensures var w, h := imageWidth as real, imageHeight as real;
      // a square as large as the shorter side
      && source.width == source.height == Min(w, h)
      // inside the image
      && 0.0 <= source.x && source.x + source.width <= w
      && 0.0 <= source.y && source.y + source.height <= h
      // centred: half the surplus on the longer axis, none on the other
      && source.x == (w - Min(w, h)) / 2.0
      && source.y == (h - Min(w, h)) / 2.0
    ensures imageWidth == imageHeight ==> source == Rect(0.0, 0.0, imageWidth as real, imageHeight as real)
    ensures dest == Rect(0.0, 0.0, CropSize as real, CropSize as real)
  {
    var width, height := imageWidth as real, imageHeight as real;
    var sourceAspectRatio := width / height;
    var canvasAspectRatio := 1.0;
    var sourceX, sourceY, sourceWidth, sourceHeight := 0.0, 0.0, width, height;

    WiderIffRatioAboveOne(width, height);
    if sourceAspectRatio > canvasAspectRatio {
      sourceWidth := height * canvasAspectRatio;
      assert sourceWidth == height == Min(width, height);
      sourceX := (width - sourceWidth) / 2.0;
    } else {
      sourceHeight := width / canvasAspectRatio;
      assert sourceHeight == width == Min(width, height);
      sourceY := (height - sourceHeight) / 2.0;
    }

    source := Rect(sourceX, sourceY, sourceWidth, sourceHeight);
    dest := Rect(0.0, 0.0, CropSize as real, CropSize as real);
  }
}
