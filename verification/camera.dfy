/** Camera.h: a pinhole camera at the origin looking down +z. The image plane sits at
    z = 1 and is width_m wide, the tangent of half the horizontal field of view. */
module Cameras {
  import opened Numerics
  import opened Vectors
  import opened Rays

  /** Horizontal field of view in degrees. */
  const FOV: real := 45.0

  datatype Camera = Camera(fov: real, aspectRatio: real, widthPx: int, heightPx: int,
                           widthM: real, heightM: real, xStep: real, yStep: real)

  /** The constructor's derived fields, each stated by the relation it establishes. */
  function NewCamera(m: CMath, width: int, height: int): (c: Camera)
    requires width != 0 && height != 0
    ensures c.fov == FOV && c.widthPx == width && c.heightPx == height
    ensures c.aspectRatio * (height as real) == width as real
    ensures c.widthM == m.tan(FOV * PI / 360.0)
    ensures c.heightM * c.aspectRatio == c.widthM
    ensures c.xStep * (width as real) == c.widthM
    ensures c.yStep * (height as real) == c.heightM
  {
    var aspectRatio := (width as real) / (height as real);
    var widthM := m.tan(FOV * PI / 360.0);
    DivisionUndone(width as real, height as real);
    DivisionUndone(widthM, aspectRatio);
    DivisionUndone(widthM, width as real);
    DivisionUndone(widthM / aspectRatio, height as real);
    Camera(FOV, aspectRatio, width, height, widthM, widthM / aspectRatio,
           widthM / (width as real), (widthM / aspectRatio) / (height as real))
  }

  lemma DivisionUndone(x: real, y: real)
    requires y != 0.0
    ensures (x / y) * y == x
    ensures x != 0.0 ==> x / y != 0.0
  {
  }

  /** The horizontal image-plane coordinate of pixel column x. */
  function XPos(c: Camera, x: int): real
  {
    (c.xStep - c.widthM) / 2.0 + (x as real) * c.xStep
  }

  /** The vertical image-plane coordinate of pixel row y, rows counted downwards, as
      written in the source; see CentredYPos for the coordinate the camera uses. */
  function YPos(c: Camera, y: int): real
  {
    (c.yStep + c.heightM) / 2.0 - (y as real) * c.yStep
  }

  /** The ray through pixel (x, y): it starts at the origin and is the unit vector
      pointing through (x_pos, y_pos, 1) on the image plane, with the row coordinate
      centred as the column coordinate is. */
  function CastRay(m: CMath, c: Camera, x: int, y: int): (r: Ray)
    requires m.Valid()
    ensures r.origin == Zero
    ensures Dot(r.direction, r.direction) == 1.0
    ensures r.direction.z > 0.0
    ensures r.direction.x == XPos(c, x) * r.direction.z
    ensures r.direction.y == CentredYPos(c, y) * r.direction.z
  {
    var target := Vector3(XPos(c, x), CentredYPos(c, y), 1.0);
    var dir := Normalised(m, target);
    var mag := Magnitude(m, target);
    assert !IsZero(target);
    assert dir == Scale(target, 1.0 / mag);
    Ray(Zero, dir)
  }

  /** Neighbouring columns are one x step apart, neighbouring rows one y step apart. */
  lemma PixelSteps(c: Camera, x: int, y: int)
    ensures XPos(c, x + 1) - XPos(c, x) == c.xStep
    ensures YPos(c, y) - YPos(c, y + 1) == c.yStep
  {
  }

  /** Column centres are symmetric about the optical axis. */
  lemma ColumnsSymmetric(m: CMath, width: int, height: int)
    requires width != 0 && height != 0
    ensures var c := NewCamera(m, width, height);
            XPos(c, 0) == -XPos(c, width - 1)
  {
    var c := NewCamera(m, width, height);
    calc {
      XPos(c, 0) + XPos(c, width - 1);
    ==
      (c.xStep - c.widthM) + ((width as real) - 1.0) * c.xStep;
    ==
      c.xStep * (width as real) - c.widthM;
    ==
      0.0;
    }
  }

  /** As written, row centres are not symmetric: the first and last row centres add up
      to two y steps instead of zero, so the image is shifted up by one row. */
  lemma RowsOffCentre(m: CMath, width: int, height: int)
    requires width != 0 && height != 0
    ensures var c := NewCamera(m, width, height);
            YPos(c, 0) + YPos(c, height - 1) == 2.0 * c.yStep
  {
    var c := NewCamera(m, width, height);
    calc {
      YPos(c, 0) + YPos(c, height - 1);
    ==
      (c.yStep + c.heightM) - ((height as real) - 1.0) * c.yStep;
    ==
      2.0 * c.yStep + c.heightM - c.yStep * (height as real);
    ==
      2.0 * c.yStep;
    }
  }

  /** A one-row image: the only row sits at height_m, outside the image plane, whose
      top edge is at height_m / 2; the centre of the plane is 0. */
  lemma SingleRowAboveImage(m: CMath, width: int)
    requires width != 0
    ensures var c := NewCamera(m, width, 1);
            YPos(c, 0) == c.heightM && c.yStep == c.heightM
  {
  }

  /** The evidently intended row coordinate, mirroring the column formula. */
  function CentredYPos(c: Camera, y: int): real
  {
    (c.heightM - c.yStep) / 2.0 - (y as real) * c.yStep
  }

  /** Corrected rows are symmetric about the axis, and each lies one step below the
      row as written. */
  lemma CentredRowsSymmetric(m: CMath, width: int, height: int, y: int)
    requires width != 0 && height != 0
    ensures var c := NewCamera(m, width, height);
            CentredYPos(c, 0) == -CentredYPos(c, height - 1)
            && CentredYPos(c, y) == YPos(c, y) - c.yStep
  {
    var c := NewCamera(m, width, height);
    calc {
      CentredYPos(c, 0) + CentredYPos(c, height - 1);
    ==
      (c.heightM - c.yStep) - ((height as real) - 1.0) * c.yStep;
    ==
      c.heightM - c.yStep * (height as real);
    ==
      0.0;
    }
  }
}
